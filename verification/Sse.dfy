/** Server-sent events: how frames are written, and how the upstream's are read back. */
module Sse {
  import opened Text

  // ---- writing ----

  function Frame(event: string, data: string): string {
    (if event == "" then "" else "event: " + event + "\n") + "data: " + data + "\n\n"
  }

  method WriteEvent(out: string, event: string, data: string) returns (next: string)
    ensures next == out + Frame(event, data)
  {
    var buf := "";
    if event != "" {
      buf := buf + "event: ";
      buf := buf + event;
      buf := buf + "\n";
    }
    buf := buf + "data: ";
    buf := buf + data;
    buf := buf + "\n\n";
    next := out + buf;
  }

  // ---- lines ----

  function IndexNewline(s: string): (i: nat)
    ensures i <= |s| && (forall k | 0 <= k < i :: s[k] != '\n') && (i < |s| ==> s[i] == '\n')
  {
    if s == "" || s[0] == '\n' then 0 else 1 + IndexNewline(s[1..])
  }

  function DropCR(line: string): string {
    if line != "" && line[|line| - 1] == '\r' then line[..|line| - 1] else line
  }

  /** The lines read, and whether reading stopped at one that does not fit the buffer. */
  datatype Scanned = Scanned(lines: seq<string>, tooLong: bool)

  function Scan(s: string, limit: nat): Scanned
    decreases |s|
  {
    var i := IndexNewline(s);
    if s == "" then Scanned([], false)
    else if i >= limit then Scanned([], true)
    else if i == |s| then Scanned([DropCR(s)], false)
    else
      var rest := Scan(s[i + 1..], limit);
      Scanned([DropCR(s[..i])] + rest.lines, rest.tooLong)
  }

  // ---- reading ----

  /** The data gathered for the next dispatch, and what was dispatched. */
  datatype Reader = Reader(data: string, out: seq<string>)

  function Flushed(r: Reader): Reader {
    if r.data == "" then r
    else Reader("", r.out + [if r.data[|r.data| - 1] == '\n' then r.data[..|r.data| - 1] else r.data])
  }

  function Fed(r: Reader, line: string): Reader {
    if line == "" then Flushed(r)
    else if "data:" <= line then
      Reader((if r.data == "" then "" else r.data + "\n") + TrimSpace(line[5..]), r.out)
    else r
  }

  function FedAll(r: Reader, lines: seq<string>): Reader
    decreases |lines|
  {
    if lines == [] then r else FedAll(Fed(r, lines[0]), lines[1..])
  }

  /** The payloads handed on, and whether the input broke the line limit. */
  function Parse(s: string, limit: nat): (seq<string>, bool) {
    var sc := Scan(s, limit);
    var r := FedAll(Reader("", []), sc.lines);
    if sc.tooLong then (r.out, true) else (Flushed(r).out, false)
  }

  /** The pipe loop: data lines gather, a blank line or the end of the input dispatches. */
  method Pipe(s: string, limit: nat) returns (payloads: seq<string>, tooLong: bool)
    ensures (payloads, tooLong) == Parse(s, limit)
  {
    hide Scan, FedAll, TrimSpace, Flushed;
    var sc := Scan(s, limit);
    var dataBuf := "";
    payloads := [];
    NothingFed(Reader("", []));
    for i := 0 to |sc.lines|
      invariant Reader(dataBuf, payloads) == FedAll(Reader("", []), sc.lines[..i])
    {
      var line := sc.lines[i];
      FedAllAppend(Reader("", []), sc.lines[..i], line);
      assert sc.lines[..i + 1] == sc.lines[..i] + [line];
      if |line| == 0 {
        dataBuf, payloads := FlushData(dataBuf, payloads);
        continue;
      }
      if "data:" <= line {
        var payload := TrimSpace(line[5..]);
        if |dataBuf| > 0 { dataBuf := dataBuf + "\n"; }
        dataBuf := dataBuf + payload;
      }
    }
    assert sc.lines[..|sc.lines|] == sc.lines;
    if sc.tooLong { return payloads, true; }
    dataBuf, payloads := FlushData(dataBuf, payloads);
    return payloads, false;
  }

  lemma NothingFed(r: Reader)
    ensures FedAll(r, []) == r
  {
  }

  method FlushData(dataBuf: string, payloads: seq<string>) returns (data: string, out: seq<string>)
    ensures Reader(data, out) == Flushed(Reader(dataBuf, payloads))
  {
    if |dataBuf| == 0 { return dataBuf, payloads; }
    var payload := if dataBuf[|dataBuf| - 1] == '\n' then dataBuf[..|dataBuf| - 1] else dataBuf;
    return "", payloads + [payload];
  }

  lemma {:induction false} FedAllAppend(r: Reader, lines: seq<string>, line: string)
    ensures FedAll(r, lines + [line]) == Fed(FedAll(r, lines), line)
    decreases |lines|
  {
    if lines == [] {
      assert [line][1..] == [];
    } else {
      FedAllAppend(Fed(r, lines[0]), lines[1..], line);
      assert (lines + [line])[1..] == lines[1..] + [line];
    }
  }

  // ---- the round trip ----

  /** A payload one frame can carry. */
  predicate Carried(p: string) {
    p != "" && TrimSpace(p) == p && '\n' !in p
  }

  lemma {:induction false} IndexIn(a: string, rest: string)
    requires '\n' !in a
    ensures IndexNewline(a + "\n" + rest) == |a|
    decreases |a|
  {
    var s := a + "\n" + rest;
    var i := IndexNewline(s);
    assert s[|a|] == '\n';
    assert forall k | 0 <= k < |a| :: s[k] == a[k] && a[k] in a && s[k] != '\n';
  }

  lemma ScanLine(a: string, rest: string, limit: nat)
    requires '\n' !in a && |a| < limit
    ensures Scan(a + "\n" + rest, limit) == Scanned([DropCR(a)] + Scan(rest, limit).lines, Scan(rest, limit).tooLong)
  {
    IndexIn(a, rest);
    var s := a + "\n" + rest;
    assert s[..|a|] == a && s[|a| + 1..] == rest;
  }

  lemma {:induction false} TrimLeftCR(y: string)
    ensures TrimLeft(y + "\r") == if TrimLeft(y) == "" then "" else TrimLeft(y) + "\r"
    decreases |y|
  {
    var x := y + "\r";
    if y == "" {
      assert x[0] == '\r' && x[1..] == "";
      assert TrimLeft(x) == TrimLeft("") == "";
    } else {
      assert x[0] == y[0] && x[1..] == y[1..] + "\r";
      if IsSpace(y[0]) {
        TrimLeftCR(y[1..]);
        assert TrimLeft(x) == TrimLeft(x[1..]) && TrimLeft(y) == TrimLeft(y[1..]);
      } else {
        assert TrimLeft(x) == x && TrimLeft(y) == y;
      }
    }
  }

  /** A carriage return at the end of a line does not reach the payload. */
  lemma TrimDropsCR(x: string)
    ensures TrimSpace(DropCR(x)) == TrimSpace(x)
  {
    if DropCR(x) != x {
      var y := DropCR(x);
      assert x == y + "\r";
      TrimLeftCR(y);
      var z := TrimLeft(y);
      if z != "" { assert (z + "\r")[..|z|] == z; }
    }
  }

  /** The event line of a frame. */
  function EventLines(event: string): seq<string> {
    if event == "" then [] else [DropCR("event: " + event)]
  }

  /** The lines of one frame, then those of what follows. */
  lemma ScanFrame(event: string, p: string, rest: string, limit: nat)
    requires '\n' !in event && '\n' !in p && |"event: " + event| < limit && |"data: " + p| < limit
    ensures var sc, more := Scan(Frame(event, p) + rest, limit), Scan(rest, limit);
      && sc.tooLong == more.tooLong
      && sc.lines == EventLines(event) + [DropCR("data: " + p), ""] + more.lines
  {
    hide Scan, DropCR;
    var data := "data: " + p + "\n" + ("" + "\n" + rest);
    ScanLine("", rest, limit);
    ScanLine("data: " + p, "" + "\n" + rest, limit);
    EmptyLine();
    if event == "" {
      assert Frame(event, p) + rest == data;
    } else {
      assert Frame(event, p) + rest == "event: " + event + "\n" + data;
      ScanLine("event: " + event, data, limit);
    }
    assert [""] + Scan(rest, limit).lines == ([""] + Scan(rest, limit).lines);
  }

  lemma EmptyLine()
    ensures DropCR("") == ""
  {
  }

  /** What a reader with nothing pending makes of one frame. */
  lemma FeedFrame(event: string, p: string, out: seq<string>, more: seq<string>)
    ensures FedAll(Reader("", out), EventLines(event) + [DropCR("data: " + p), ""] + more)
         == FedAll(Reader("", if TrimSpace(p) == "" then out else out + [TrimSpace(p)]), more)
  {
    hide TrimSpace, FedAll;
    var r := Reader("", out);
    var line := DropCR("data: " + p);
    var tail := [line, ""] + more;
    SkipEvent(r, event, tail);
    assert EventLines(event) + [line, ""] + more == EventLines(event) + tail;
    DataLine(p, out);
    FeedOne(r, tail);
    assert tail[1..] == [""] + more;
    FeedOne(Fed(r, line), [""] + more);
    assert ([""] + more)[1..] == more;
    TrimmedEnd(p);
  }

  lemma FeedOne(r: Reader, lines: seq<string>)
    requires lines != []
    ensures FedAll(r, lines) == FedAll(Fed(r, lines[0]), lines[1..])
  {
  }

  lemma SkipEvent(r: Reader, event: string, tail: seq<string>)
    ensures FedAll(r, EventLines(event) + tail) == FedAll(r, tail)
  {
    if event == "" {
      assert EventLines(event) + tail == tail;
    } else {
      var line := DropCR("event: " + event);
      assert line[0] == 'e';
      assert (EventLines(event) + tail)[0] == line && (EventLines(event) + tail)[1..] == tail;
    }
  }

  lemma CRAfter(a: string, b: string)
    requires b != ""
    ensures DropCR(a + b) == a + DropCR(b)
  {
    assert (a + b)[..|a + b| - 1] == a + b[..|b| - 1];
  }

  lemma DataLine(p: string, out: seq<string>)
    ensures Fed(Reader("", out), DropCR("data: " + p)) == Reader(TrimSpace(p), out)
  {
    hide TrimSpace, DropCR;
    CRAfter("data:", " " + p);
    assert "data: " + p == "data:" + (" " + p);
    var line := "data:" + DropCR(" " + p);
    assert line[..5] == "data:" && line[5..] == DropCR(" " + p);
    TrimDropsCR(" " + p);
    TrimAfterSpace(p);
    assert "" + TrimSpace(p) == TrimSpace(p);
  }

  lemma TrimmedEnd(p: string)
    ensures TrimSpace(p) != "" ==> TrimSpace(p)[|TrimSpace(p)| - 1] != '\n'
  {
  }

  predicate Sendable(frames: seq<(string, string)>, limit: nat) {
    forall i | 0 <= i < |frames| ::
      && '\n' !in frames[i].0 && Carried(frames[i].1)
      && |"event: " + frames[i].0| < limit && |"data: " + frames[i].1| < limit
  }

  function Stream(frames: seq<(string, string)>): string {
    if frames == [] then "" else Frame(frames[0].0, frames[0].1) + Stream(frames[1..])
  }

  function Payloads(frames: seq<(string, string)>): seq<string> {
    if frames == [] then [] else [frames[0].1] + Payloads(frames[1..])
  }

  lemma {:induction false} FeedStream(frames: seq<(string, string)>, out: seq<string>, limit: nat)
    requires Sendable(frames, limit)
    ensures !Scan(Stream(frames), limit).tooLong
    ensures FedAll(Reader("", out), Scan(Stream(frames), limit).lines) == Reader("", out + Payloads(frames))
    decreases |frames|
  {
    hide TrimSpace, Frame, Scan, FedAll, Carried, EventLines;
    if frames == [] {
      NothingToScan(limit, out);
      assert out + [] == out;
    } else {
      var (event, p) := frames[0];
      CarriedWhole(p);
      ScanFrame(event, p, Stream(frames[1..]), limit);
      FeedFrame(event, p, out, Scan(Stream(frames[1..]), limit).lines);
      FeedStream(frames[1..], out + [p], limit);
      assert out + Payloads(frames) == out + [p] + Payloads(frames[1..]);
    }
  }

  lemma NothingToScan(limit: nat, out: seq<string>)
    ensures Scan("", limit) == Scanned([], false) && FedAll(Reader("", out), []) == Reader("", out)
  {
  }

  lemma CarriedWhole(p: string)
    requires Carried(p)
    ensures p != "" && TrimSpace(p) == p && '\n' !in p
  {
  }

  /** Whatever payloads are written, in whatever number: reading the frames back hands on the same payloads, in order,
      once each. */
  lemma RoundTrip(frames: seq<(string, string)>, limit: nat)
    requires Sendable(frames, limit)
    ensures Parse(Stream(frames), limit) == (Payloads(frames), false)
  {
    FeedStream(frames, [], limit);
    assert [] + Payloads(frames) == Payloads(frames);
  }

  // ---- exactly which payloads a frame carries ----

  function Sum(lines: seq<string>): nat {
    if lines == [] then 0 else |lines[0]| + Sum(lines[1..])
  }

  function Newlines(s: string): nat {
    if s == "" then 0 else (if s[0] == '\n' then 1 else 0) + Newlines(s[1..])
  }

  function Weight(r: Reader): nat {
    |r.data| + Sum(r.out)
  }

  lemma {:induction false} SumAppend(lines: seq<string>, line: string)
    ensures Sum(lines + [line]) == Sum(lines) + |line|
    decreases |lines|
  {
    if lines == [] {
      assert [line][1..] == [];
    } else {
      SumAppend(lines[1..], line);
      assert (lines + [line])[1..] == lines[1..] + [line];
    }
  }

  lemma {:induction false} NewlinesSplit(s: string, i: nat)
    requires i <= |s|
    ensures Newlines(s) == Newlines(s[..i]) + Newlines(s[i..])
    decreases i
  {
    if i > 0 {
      NewlinesSplit(s[1..], i - 1);
      assert s[..i][1..] == s[1..][..i - 1] && s[i..] == s[1..][i - 1..];
    } else {
      assert s[..0] == "" && s[0..] == s;
    }
  }

  /** The line ends are not part of any line. */
  lemma {:induction false} ScanSum(s: string, limit: nat)
    ensures Sum(Scan(s, limit).lines) + Newlines(s) <= |s| || Scan(s, limit).tooLong
    decreases |s|
  {
    var i := IndexNewline(s);
    if s != "" && i < limit {
      if i == |s| {
        NoNewlines(s);
      } else {
        ScanSum(s[i + 1..], limit);
        NoNewlines(s[..i]);
        NewlinesSplit(s, i);
        assert s[i..][1..] == s[i + 1..];
        var lines := Scan(s, limit).lines;
        assert lines[1..] == Scan(s[i + 1..], limit).lines;
      }
    }
  }

  lemma {:induction false} NoNewlines(s: string)
    requires forall k | 0 <= k < |s| :: s[k] != '\n'
    ensures Newlines(s) == 0
    decreases |s|
  {
    if s != "" { NoNewlines(s[1..]); }
  }

  lemma FedWeight(r: Reader, line: string)
    ensures Weight(Fed(r, line)) <= Weight(r) + |line|
  {
    hide TrimSpace;
    if line == "" {
      FlushedWeight(r);
    } else if "data:" <= line {
      TrimShorter(line[5..]);
    }
  }

  lemma TrimShorter(s: string)
    ensures |TrimSpace(s)| <= |s|
  {
  }

  lemma FlushedWeight(r: Reader)
    ensures Weight(Flushed(r)) <= Weight(r)
  {
    if r.data != "" {
      SumAppend(r.out, if r.data[|r.data| - 1] == '\n' then r.data[..|r.data| - 1] else r.data);
    }
  }

  lemma {:induction false} FedAllWeight(r: Reader, lines: seq<string>)
    ensures Weight(FedAll(r, lines)) <= Weight(r) + Sum(lines)
    decreases |lines|
  {
    if lines != [] {
      FedWeight(r, lines[0]);
      FedAllWeight(Fed(r, lines[0]), lines[1..]);
    }
  }

  /** A payload with a line end in it loses at least that on the way. */
  lemma LineEndIsLost(event: string, p: string, limit: nat)
    requires '\n' !in event && '\n' in p && |"event: " + event| < limit && |"data: " + p| < limit
    ensures Parse(Frame(event, p), limit) != ([p], false)
  {
    hide TrimSpace, Scan, FedAll, Frame, DropCR, Newlines, Fed, Flushed;
    var i := IndexNewline(p);
    var head, rest := p[..i], p[i + 1..] + "\n\n";
    FrameSplit(event, p, i);
    ScanFirst(event, head, rest, limit);
    var more := Scan(rest, limit);
    ScanSum(rest, limit);
    TwoNewlines(p[i + 1..]);
    FirstLine(event, head, more.lines);
    TrimShorter(head);
    FedAllWeight(Reader(TrimSpace(head), []), more.lines);
    FlushedWeight(FedAll(Reader(TrimSpace(head), []), more.lines));
    assert Sum([p]) == |p| by { assert [p][1..] == []; }
  }

  lemma FrameSplit(event: string, p: string, i: nat)
    requires i < |p| && p[i] == '\n'
    ensures Frame(event, p) == EventPart(event) + ("data: " + p[..i] + "\n" + (p[i + 1..] + "\n\n"))
  {
    assert p == p[..i] + "\n" + p[i + 1..];
  }

  lemma FirstLine(event: string, head: string, more: seq<string>)
    ensures FedAll(Reader("", []), EventLines(event) + ([DropCR("data: " + head)] + more))
         == FedAll(Reader(TrimSpace(head), []), more)
  {
    hide TrimSpace, FedAll, DropCR;
    var r, lines := Reader("", []), [DropCR("data: " + head)] + more;
    SkipEvent(r, event, lines);
    FeedOne(r, lines);
    assert lines[1..] == more;
    DataLine(head, []);
  }

  function EventPart(event: string): string {
    if event == "" then "" else "event: " + event + "\n"
  }

  lemma TwoNewlines(s: string)
    ensures Newlines(s + "\n\n") >= 2
  {
    NewlinesSplit(s + "\n\n", |s|);
    assert (s + "\n\n")[|s|..] == "\n\n";
    assert "\n\n"[1..] == "\n" && "\n"[1..] == "";
    assert Newlines("\n\n") == 1 + Newlines("\n") == 2 + Newlines("");
  }

  lemma ScanFirst(event: string, head: string, rest: string, limit: nat)
    requires '\n' !in event && '\n' !in head && |"event: " + event| < limit && |"data: " + head| < limit
    ensures var sc, more := Scan(EventPart(event) + ("data: " + head + "\n" + rest), limit), Scan(rest, limit);
      sc.tooLong == more.tooLong && sc.lines == EventLines(event) + ([DropCR("data: " + head)] + more.lines)
  {
    hide Scan, DropCR;
    var data := "data: " + head + "\n" + rest;
    ScanLine("data: " + head, rest, limit);
    if event == "" {
      assert EventPart(event) + data == data;
    } else {
      assert EventPart(event) + data == "event: " + event + "\n" + data;
      ScanLine("event: " + event, data, limit);
    }
  }

  /** A frame hands its payload on unchanged if and only if the payload is not empty, has no white space around it and
      no line end in it. */
  lemma FrameCarries(event: string, p: string, limit: nat)
    requires '\n' !in event && |"event: " + event| < limit && |"data: " + p| < limit
    ensures Parse(Frame(event, p), limit) == ([p], false) <==> Carried(p)
  {
    if '\n' in p {
      LineEndIsLost(event, p, limit);
    } else {
      hide TrimSpace, Frame, DropCR;
      assert Frame(event, p) + "" == Frame(event, p);
      ScanFrame(event, p, "", limit);
      FeedFrame(event, p, [], []);
      assert EventLines(event) + [DropCR("data: " + p), ""] + [] == EventLines(event) + [DropCR("data: " + p), ""];
      TrimNothing();
      assert [] + [TrimSpace(p)] == [TrimSpace(p)];
    }
  }

  lemma TrimNothing()
    ensures TrimSpace("") == ""
  {
  }

  // ---- the standard's reader ----

  /** The value of a data field: one leading space does not belong to it. */
  function Value(line: string): string
    requires "data:" <= line
  {
    if |line| > 5 && line[5] == ' ' then line[6..] else line[5..]
  }

  /** One line, as sections 9.2.5 and 9.2.6 of the WHATWG HTML standard treat the data field: every value is followed
      by a line end, and a blank line dispatches the buffer without its last one. */
  function StandardFed(r: Reader, line: string): Reader {
    if line == "" then
      if r.data == "" then r
      else Reader("", r.out + [if r.data[|r.data| - 1] == '\n' then r.data[..|r.data| - 1] else r.data])
    else if "data:" <= line then Reader(r.data + Value(line) + "\n", r.out)
    else if line == "data" then Reader(r.data + "\n", r.out)
    else r
  }

  function StandardAll(r: Reader, lines: seq<string>): Reader
    decreases |lines|
  {
    if lines == [] then r else StandardAll(StandardFed(r, lines[0]), lines[1..])
  }

  // ---- exactly when both readers dispatch the same ----

  predicate IsData(line: string) {
    line == "data" || "data:" <= line
  }

  /** The value of a data field as the standard reads it; a bare field name has the empty value. */
  function FieldValue(line: string): string
    requires IsData(line)
  {
    if line == "data" then "" else Value(line)
  }

  function DataLines(ls: seq<string>): (r: seq<string>)
    ensures forall i | 0 <= i < |r| :: IsData(r[i])
  {
    if ls == [] then []
    else if IsData(ls[0]) then [ls[0]] + DataLines(ls[1..])
    else DataLines(ls[1..])
  }

  /** The lines of one event: none is blank, and none holds a line end. */
  predicate Block(ls: seq<string>) {
    forall i | 0 <= i < |ls| :: ls[i] != "" && '\n' !in ls[i]
  }

  /** Every field is written out and trimmed. */
  predicate Trimmed(ds: seq<string>) {
    forall i | 0 <= i < |ds| :: "data:" <= ds[i] && TrimSpace(Value(ds[i])) == Value(ds[i])
  }

  predicate Framed(vs: seq<string>) {
    vs == [] || (vs[0] != "" && vs[|vs| - 1] != "")
  }

  /** No bare field name, every value trimmed, and the first and the last value not empty; or no data at all. */
  predicate Faithful(ls: seq<string>) {
    Trimmed(DataLines(ls)) && Framed(FieldValues(DataLines(ls)))
  }

  /** What a block makes the pipe loop dispatch, and what it makes the standard's reader dispatch. */
  function Dispatched(ls: seq<string>): seq<string> {
    Flushed(FedAll(Reader("", []), ls)).out
  }

  function StandardDispatched(ls: seq<string>): seq<string> {
    Flushed(StandardAll(Reader("", []), ls)).out
  }

  // -- both as joined values

  function FieldValues(ds: seq<string>): (r: seq<string>)
    requires forall i | 0 <= i < |ds| :: IsData(ds[i])
    ensures |r| == |ds| && forall i | 0 <= i < |r| :: r[i] == FieldValue(ds[i])
  {
    seq(|ds|, i requires 0 <= i < |ds| => FieldValue(ds[i]))
  }

  /** The trimmed values of the lines the pipe loop takes for data. */
  function Trims(ds: seq<string>): (r: seq<string>)
    ensures |r| <= |ds|
  {
    if ds == [] then []
    else if "data:" <= ds[0] then [TrimSpace(ds[0][5..])] + Trims(ds[1..])
    else Trims(ds[1..])
  }

  function Joined(vs: seq<string>): string {
    if vs == [] then "" else if |vs| == 1 then vs[0] else vs[0] + "\n" + Joined(vs[1..])
  }

  function Ended(vs: seq<string>): string {
    if vs == [] then "" else vs[0] + "\n" + Ended(vs[1..])
  }

  function Gathered(data: string, ws: seq<string>): string
    decreases |ws|
  {
    if ws == [] then data else Gathered((if data == "" then "" else data + "\n") + ws[0], ws[1..])
  }

  lemma {:induction false} StandardGathers(r: Reader, ls: seq<string>)
    requires Block(ls)
    ensures StandardAll(r, ls) == Reader(r.data + Ended(FieldValues(DataLines(ls))), r.out)
    decreases |ls|
  {
    hide TrimSpace;
    if ls == [] {
      assert r.data + "" == r.data;
    } else {
      StandardGathers(StandardFed(r, ls[0]), ls[1..]);
      var ds := DataLines(ls);
      if IsData(ls[0]) {
        assert ds == [ls[0]] + DataLines(ls[1..]);
        assert FieldValues(ds)[1..] == FieldValues(DataLines(ls[1..]));
        assert StandardFed(r, ls[0]).data == r.data + (FieldValue(ls[0]) + "\n");
      }
    }
  }

  lemma {:induction false} PipeGathers(r: Reader, ls: seq<string>)
    requires Block(ls)
    ensures FedAll(r, ls) == Reader(Gathered(r.data, Trims(DataLines(ls))), r.out)
    decreases |ls|
  {
    hide TrimSpace;
    if ls != [] {
      PipeGathers(Fed(r, ls[0]), ls[1..]);
      var ds := DataLines(ls);
      if IsData(ls[0]) {
        assert ds[1..] == DataLines(ls[1..]);
      }
    }
  }

  /** Leading empty values leave no trace in the pipe loop, nor does one at the end. */
  function WithoutLead(ws: seq<string>): (r: seq<string>)
    ensures |r| <= |ws| && (r != [] ==> r[0] != "")
    ensures |r| == |ws| ==> r == ws
  {
    if ws != [] && ws[0] == "" then WithoutLead(ws[1..]) else ws
  }

  function Traced(ws: seq<string>): (r: seq<string>)
    ensures |r| <= |ws|
    ensures r == ws <==> ws == [] || (ws[0] != "" && ws[|ws| - 1] != "")
  {
    var us := WithoutLead(ws);
    if us != [] && us[|us| - 1] == "" then us[..|us| - 1] else us
  }

  lemma {:induction false} GatheredJoins(data: string, ws: seq<string>)
    requires data != ""
    ensures Gathered(data, ws) == Joined([data] + ws)
    decreases |ws|
  {
    if ws != [] {
      GatheredJoins(data + "\n" + ws[0], ws[1..]);
      JoinedTwo(data, ws);
      assert ([data] + ws)[1..] == ws;
    }
  }

  /** Joining the first two values first makes no difference. */
  lemma JoinedTwo(data: string, ws: seq<string>)
    requires ws != []
    ensures Joined([data + "\n" + ws[0]] + ws[1..]) == data + "\n" + Joined(ws)
  {
    var first := data + "\n" + ws[0];
    var xs := [first] + ws[1..];
    assert xs[0] == first && xs[1..] == ws[1..];
    if |ws| > 1 {
      var rest := Joined(ws[1..]);
      hide Joined;
      assert first + "\n" + rest == data + "\n" + (ws[0] + "\n" + rest);
    }
  }

  lemma {:induction false} GatheredLead(ws: seq<string>)
    ensures Gathered("", ws) == Joined(WithoutLead(ws))
    decreases |ws|
  {
    if ws != [] {
      assert "" + ws[0] == ws[0];
      if ws[0] == "" {
        GatheredLead(ws[1..]);
      } else {
        GatheredJoins(ws[0], ws[1..]);
        assert [ws[0]] + ws[1..] == ws;
      }
    }
  }

  ghost predicate OneLine(vs: seq<string>) {
    forall i | 0 <= i < |vs| :: '\n' !in vs[i]
  }

  lemma {:induction false} EndedJoins(vs: seq<string>)
    requires vs != []
    ensures Ended(vs) == Joined(vs) + "\n"
    decreases |vs|
  {
    if |vs| > 1 {
      EndedJoins(vs[1..]);
      assert vs[0] + "\n" + (Joined(vs[1..]) + "\n") == vs[0] + "\n" + Joined(vs[1..]) + "\n";
    } else {
      assert vs[1..] == [];
    }
  }

  /** Joined values end with a line end when the last of several is empty, and without it they are the others. */
  lemma {:induction false} JoinedLast(us: seq<string>)
    requires us != [] && us[0] != "" && OneLine(us)
    ensures Joined(us) != ""
    ensures Joined(us)[|Joined(us)| - 1] == '\n' <==> us[|us| - 1] == ""
    ensures us[|us| - 1] == "" ==> Joined(us)[..|Joined(us)| - 1] == Joined(us[..|us| - 1])
    decreases |us|
  {
    if |us| > 1 {
      LastOfMore(us);
    } else {
      assert us[0][|us[0]| - 1] in us[0];
    }
  }

  lemma {:induction false} LastOfMore(us: seq<string>)
    requires |us| > 1 && OneLine(us)
    ensures |Joined(us)| > |us[0]|
    ensures Joined(us)[|Joined(us)| - 1] == '\n' <==> us[|us| - 1] == ""
    ensures us[|us| - 1] == "" ==> Joined(us)[..|Joined(us)| - 1] == Joined(us[..|us| - 1])
    decreases |us|
  {
    var j := Joined(us[1..]);
    assert Joined(us) == us[0] + "\n" + j;
    if |us| == 2 {
      assert us[1..] == [us[1]] && us[..1] == [us[0]] && j == us[1];
      if us[1] != "" { assert us[1][|us[1]| - 1] in us[1]; }
    } else {
      LastOfMore(us[1..]);
      assert us[..|us| - 1][1..] == us[1..][..|us| - 2];
    }
  }

  lemma TrimOneLine(s: string)
    requires '\n' !in s
    ensures '\n' !in TrimSpace(s)
  {
    assert forall i | 0 <= i < |TrimLeft(s)| :: TrimLeft(s)[i] in s;
    assert forall i | 0 <= i < |TrimSpace(s)| :: TrimSpace(s)[i] == TrimLeft(s)[i];
  }

  lemma {:induction false} TrimsOneLine(ds: seq<string>)
    requires OneLine(ds)
    ensures OneLine(Trims(ds))
    decreases |ds|
  {
    hide TrimSpace;
    if ds != [] {
      TrimsOneLine(ds[1..]);
      if "data:" <= ds[0] {
        assert forall i | 0 <= i < |ds[0][5..]| :: ds[0][5..][i] in ds[0];
        TrimOneLine(ds[0][5..]);
      }
    }
  }

  lemma {:induction false} DataOneLine(ls: seq<string>)
    requires Block(ls)
    ensures OneLine(DataLines(ls)) && OneLine(FieldValues(DataLines(ls)))
    decreases |ls|
  {
    var ds := DataLines(ls);
    if ls != [] {
      DataOneLine(ls[1..]);
      if IsData(ls[0]) { assert ds[1..] == DataLines(ls[1..]); }
    }
    forall i | 0 <= i < |ds| ensures '\n' !in FieldValue(ds[i]) {
      assert '\n' !in ds[i];
    }
  }

  lemma {:induction false} LeadOneLine(ws: seq<string>)
    requires OneLine(ws)
    ensures OneLine(WithoutLead(ws)) && OneLine(Traced(ws))
    decreases |ws|
  {
    if ws != [] { LeadOneLine(ws[1..]); }
  }

  /** What both readers dispatch, in values. */
  lemma PipeDispatches(ls: seq<string>)
    requires Block(ls)
    ensures var t := Traced(Trims(DataLines(ls)));
      Dispatched(ls) == if t == [] then [] else [Joined(t)]
  {
    hide TrimSpace;
    PipeGathers(Reader("", []), ls);
    var ws := Trims(DataLines(ls));
    DataOneLine(ls);
    TrimsOneLine(DataLines(ls));
    GatheredLead(ws);
    LeadOneLine(ws);
    var us := WithoutLead(ws);
    if us != [] { JoinedLast(us); }
  }

  lemma StandardDispatches(ls: seq<string>)
    requires Block(ls)
    ensures var vs := FieldValues(DataLines(ls));
      StandardDispatched(ls) == if vs == [] then [] else [Joined(vs)]
  {
    hide TrimSpace;
    StandardGathers(Reader("", []), ls);
    var vs := FieldValues(DataLines(ls));
    assert "" + Ended(vs) == Ended(vs);
    if vs != [] {
      EndedJoins(vs);
      assert (Joined(vs) + "\n")[..|Joined(vs)|] == Joined(vs);
    }
  }

  /** Values without line ends can be told apart when they are joined. */
  lemma {:induction false} JoinedTellsApart(a: seq<string>, b: seq<string>)
    requires a != [] && b != [] && OneLine(a) && OneLine(b) && Joined(a) == Joined(b)
    ensures a == b
    decreases |a|
  {
    FirstOf(a);
    FirstOf(b);
    if |a| > 1 && |b| > 1 {
      var j := Joined(a);
      assert j[|a[0]| + 1..] == Joined(a[1..]) && j[|b[0]| + 1..] == Joined(b[1..]);
      assert j[..|a[0]|] == a[0] && j[..|b[0]|] == b[0];
      JoinedTellsApart(a[1..], b[1..]);
      assert a == [a[0]] + a[1..] && b == [b[0]] + b[1..];
    }
  }

  lemma FirstOf(a: seq<string>)
    requires a != [] && OneLine(a)
    ensures IndexNewline(Joined(a)) == |a[0]| && (|a| > 1 <==> |a[0]| < |Joined(a)|)
    ensures |a| == 1 ==> Joined(a) == a[0]
  {
    var j := Joined(a);
    var i := IndexNewline(j);
    assert '\n' !in a[0];
    if |a| > 1 {
      IndexIn(a[0], Joined(a[1..]));
    } else {
      assert forall k | 0 <= k < |j| :: j[k] in a[0];
    }
  }

  lemma {:induction false} TrimsAll(ds: seq<string>)
    requires forall i | 0 <= i < |ds| :: IsData(ds[i])
    ensures |Trims(ds)| == |ds| <==> forall i | 0 <= i < |ds| :: "data:" <= ds[i]
    ensures |Trims(ds)| == |ds| ==> forall i | 0 <= i < |ds| :: Trims(ds)[i] == TrimSpace(ds[i][5..])
    decreases |ds|
  {
    hide TrimSpace;
    if ds != [] { TrimsAll(ds[1..]); }
  }

  lemma TrimmedValues(ds: seq<string>)
    requires forall i | 0 <= i < |ds| :: IsData(ds[i])
    ensures Trims(ds) == FieldValues(ds) <==> Trimmed(ds)
  {
    var ws, vs := Trims(ds), FieldValues(ds);
    TrimsAll(ds);
    forall i | 0 <= i < |ds| && "data:" <= ds[i]
      ensures TrimSpace(ds[i][5..]) == vs[i] <==> TrimSpace(Value(ds[i])) == Value(ds[i])
    {
      TrimOfValue(ds[i]);
    }
    hide TrimSpace, Trims, Value, IsData;
    if Trimmed(ds) { assert |ws| == |vs|; }
  }

  /** The dispatched values are the standard's exactly for faithful blocks. */
  lemma SameValues(ls: seq<string>)
    requires Block(ls)
    ensures Traced(Trims(DataLines(ls))) == FieldValues(DataLines(ls)) <==> Faithful(ls)
  {
    var ds := DataLines(ls);
    TrimmedValues(ds);
    hide TrimSpace, DataLines, Trims, Traced, Trimmed, IsData, Block, FieldValues, Framed;
    TracedSame(Trims(ds), FieldValues(ds));
  }

  lemma TracedSame(ws: seq<string>, vs: seq<string>)
    requires |ws| <= |vs|
    ensures Traced(ws) == vs <==> ws == vs && Framed(vs)
  {
    hide WithoutLead;
  }

  lemma TrimOfValue(line: string)
    requires "data:" <= line
    ensures TrimSpace(line[5..]) == TrimSpace(Value(line)) && FieldValue(line) == Value(line)
  {
    if |line| > 5 && line[5] == ' ' {
      assert line[5..] == " " + Value(line);
      TrimAfterSpace(Value(line));
    }
  }

  /** A block is dispatched as the standard wants it if and only if it is faithful. */
  lemma BlockAgrees(ls: seq<string>)
    requires Block(ls)
    ensures Dispatched(ls) == StandardDispatched(ls) <==> Faithful(ls)
  {
    PipeDispatches(ls);
    StandardDispatches(ls);
    SameValues(ls);
    DataOneLine(ls);
    TrimsOneLine(DataLines(ls));
    LeadOneLine(Trims(DataLines(ls)));
    var t, vs := Traced(Trims(DataLines(ls))), FieldValues(DataLines(ls));
    hide TrimSpace, Dispatched, StandardDispatched, Traced, Trims, DataLines, Faithful, Joined;
    if t != [] && vs != [] && Joined(t) == Joined(vs) { JoinedTellsApart(t, vs); }
  }

  /** The ways to disagree: a bare field name, white space around a value, an empty first value, an empty last value;
      an empty value in between is no matter. */
  lemma WaysToDisagree()
    ensures Dispatched(["data"]) != StandardDispatched(["data"])
    ensures Dispatched(["data:  a"]) != StandardDispatched(["data:  a"])
    ensures Dispatched(["data:", "data: a"]) != StandardDispatched(["data:", "data: a"])
    ensures Dispatched(["data: a", "data:"]) != StandardDispatched(["data: a", "data:"])
    ensures Dispatched(["data: a", "data:", "data: b"]) == StandardDispatched(["data: a", "data:", "data: b"])
  {
    SmallValues();
    hide TrimSpace, Dispatched, StandardDispatched, Value, DataLines;
    SmallBlocks();
    BlockAgrees(["data"]);
    BlockAgrees(["data:  a"]);
    BlockAgrees(["data:", "data: a"]);
    BlockAgrees(["data: a", "data:"]);
    BlockAgrees(["data: a", "data:", "data: b"]);
  }

  lemma SmallValues()
    ensures Value("data:  a") == " a" && Value("data: a") == "a" && Value("data: b") == "b" && Value("data:") == ""
    ensures TrimSpace(" a") == "a" && TrimSpace("a") == "a" && TrimSpace("b") == "b" && TrimSpace("") == ""
  {
    hide TrimSpace, IsSpace;
    Letter('a');
    Letter('b');
    TrimSpaceKeeps("a");
    TrimSpaceKeeps("b");
    TrimSpaceKeeps("");
    TrimAfterSpace("a");
    assert " " + "a" == " a";
  }

  lemma Letter(c: char)
    requires 'a' <= c <= 'z'
    ensures !IsSpace(c)
  {
  }

  lemma SmallBlocks()
    ensures DataLines(["data"]) == ["data"] && DataLines(["data:  a"]) == ["data:  a"]
    ensures DataLines(["data:", "data: a"]) == ["data:", "data: a"]
    ensures DataLines(["data: a", "data:"]) == ["data: a", "data:"]
    ensures DataLines(["data: a", "data:", "data: b"]) == ["data: a", "data:", "data: b"]
  {
    OneData("data");
    OneData("data:  a");
    TwoData("data:", "data: a");
    TwoData("data: a", "data:");
    TwoData("data:", "data: b");
    assert ["data: a", "data:", "data: b"][1..] == ["data:", "data: b"];
  }

  lemma OneData(a: string)
    requires IsData(a)
    ensures DataLines([a]) == [a]
  {
    assert [a][1..] == [];
  }

  lemma TwoData(a: string, b: string)
    requires IsData(a) && IsData(b)
    ensures DataLines([a, b]) == [a, b]
  {
    assert [a, b][1..] == [b];
    OneData(b);
  }

  // -- whole streams of blocks

  function LinesOf(blocks: seq<seq<string>>): seq<string> {
    if blocks == [] then [] else blocks[0] + [""] + LinesOf(blocks[1..])
  }

  function PipeOut(blocks: seq<seq<string>>): seq<string> {
    if blocks == [] then [] else Dispatched(blocks[0]) + PipeOut(blocks[1..])
  }

  function StandardOut(blocks: seq<seq<string>>): seq<string> {
    if blocks == [] then [] else StandardDispatched(blocks[0]) + StandardOut(blocks[1..])
  }

  lemma {:induction false} FedAllSplit(r: Reader, a: seq<string>, b: seq<string>)
    ensures FedAll(r, a + b) == FedAll(FedAll(r, a), b)
    ensures StandardAll(r, a + b) == StandardAll(StandardAll(r, a), b)
    decreases |a|
  {
    hide Fed, StandardFed;
    if a == [] {
      assert a + b == b;
    } else {
      assert (a + b)[0] == a[0] && (a + b)[1..] == a[1..] + b;
      FedAllSplit(Fed(r, a[0]), a[1..], b);
      FedAllSplit(StandardFed(r, a[0]), a[1..], b);
    }
  }

  lemma OneBlock(out: seq<string>, ls: seq<string>)
    requires Block(ls)
    ensures FedAll(Reader("", out), ls + [""]) == Reader("", out + Dispatched(ls))
    ensures StandardAll(Reader("", out), ls + [""]) == Reader("", out + StandardDispatched(ls))
  {
    hide TrimSpace, Gathered, Trims, DataLines, Ended;
    FedAllSplit(Reader("", out), ls, [""]);
    PipeGathers(Reader("", out), ls);
    PipeGathers(Reader("", []), ls);
    StandardGathers(Reader("", out), ls);
    StandardGathers(Reader("", []), ls);
    FedBlank(FedAll(Reader("", out), ls));
    FedBlank(StandardAll(Reader("", out), ls));
    hide FedAll, StandardAll;
  }

  lemma FedBlank(r: Reader)
    ensures FedAll(r, [""]) == Flushed(r) == StandardAll(r, [""])
  {
    assert [""][1..] == [];
  }

  lemma {:induction false} StreamOut(blocks: seq<seq<string>>, out: seq<string>)
    requires forall i | 0 <= i < |blocks| :: Block(blocks[i])
    ensures FedAll(Reader("", out), LinesOf(blocks)) == Reader("", out + PipeOut(blocks))
    ensures StandardAll(Reader("", out), LinesOf(blocks)) == Reader("", out + StandardOut(blocks))
    decreases |blocks|
  {
    hide Dispatched, StandardDispatched, FedAll, StandardAll, Block;
    if blocks == [] {
      NothingRead(Reader("", out));
      assert out + [] == out;
    } else {
      OneBlock(out, blocks[0]);
      FedAllSplit(Reader("", out), blocks[0] + [""], LinesOf(blocks[1..]));
      StreamOut(blocks[1..], out + Dispatched(blocks[0]));
      StreamOut(blocks[1..], out + StandardDispatched(blocks[0]));
      assert out + Dispatched(blocks[0]) + PipeOut(blocks[1..]) == out + PipeOut(blocks);
      assert out + StandardDispatched(blocks[0]) + StandardOut(blocks[1..]) == out + StandardOut(blocks);
    }
  }

  lemma NothingRead(r: Reader)
    ensures FedAll(r, []) == r == StandardAll(r, [])
  {
  }

  /** A block with data is never dispatched by the pipe loop alone. */
  lemma DispatchedSizes(ls: seq<string>)
    requires Block(ls)
    ensures |Dispatched(ls)| <= |StandardDispatched(ls)| <= 1
  {
    PipeDispatches(ls);
    StandardDispatches(ls);
    hide TrimSpace, Dispatched, StandardDispatched, Traced, DataLines, Joined, Trims;
  }

  lemma {:induction false} OutSizes(blocks: seq<seq<string>>)
    requires forall i | 0 <= i < |blocks| :: Block(blocks[i])
    ensures |PipeOut(blocks)| <= |StandardOut(blocks)|
    decreases |blocks|
  {
    hide Dispatched, StandardDispatched, Block;
    if blocks != [] {
      DispatchedSizes(blocks[0]);
      OutSizes(blocks[1..]);
    }
  }

  lemma {:induction false} OutsAgree(blocks: seq<seq<string>>)
    requires forall i | 0 <= i < |blocks| :: Block(blocks[i])
    ensures PipeOut(blocks) == StandardOut(blocks) <==> forall i | 0 <= i < |blocks| :: Faithful(blocks[i])
    decreases |blocks|
  {
    hide Dispatched, StandardDispatched, Block, Faithful;
    if blocks != [] {
      var a, b, x, y := Dispatched(blocks[0]), StandardDispatched(blocks[0]), PipeOut(blocks[1..]), StandardOut(blocks[1..]);
      BlockAgrees(blocks[0]);
      OutsAgree(blocks[1..]);
      DispatchedSizes(blocks[0]);
      OutSizes(blocks[1..]);
      SamePieces(a, x, b, y);
      assert (forall i | 0 <= i < |blocks| :: Faithful(blocks[i]))
        <==> Faithful(blocks[0]) && forall i | 0 <= i < |blocks[1..]| :: Faithful(blocks[1..][i]);
    }
  }

  lemma SamePieces(a: seq<string>, x: seq<string>, b: seq<string>, y: seq<string>)
    requires |a| <= |b| && |x| <= |y|
    ensures a + x == b + y <==> a == b && x == y
  {
    if a + x == b + y {
      assert |a| == |b|;
      assert a == (a + x)[..|a|] && b == (b + y)[..|b|];
      assert x == (a + x)[|a|..] && y == (b + y)[|b|..];
    }
  }

  /** A stream of blocks is read as the standard reads it if and only if every block of it is faithful. */
  lemma StreamAgrees(blocks: seq<seq<string>>)
    requires forall i | 0 <= i < |blocks| :: Block(blocks[i])
    ensures FedAll(Reader("", []), LinesOf(blocks)) == StandardAll(Reader("", []), LinesOf(blocks))
       <==> forall i | 0 <= i < |blocks| :: Faithful(blocks[i])
  {
    hide FedAll, StandardAll, PipeOut, StandardOut, Faithful, Block;
    StreamOut(blocks, []);
    OutsAgree(blocks);
    assert [] + PipeOut(blocks) == PipeOut(blocks) && [] + StandardOut(blocks) == StandardOut(blocks);
  }
}
