/** The whole pipe: upstream bytes in, legal frames out, for any decoder of payloads. */
module StreamPipe {
  import opened Text
  import opened StreamReader
  import opened StreamSession
  import opened StreamTranslator
  import S = Sse

  datatype PipeOutcome = Read(result: PipeResult) | LineTooLong

  function Events(payloads: seq<string>, decode: string -> Event): (es: seq<Event>)
    ensures |es| == |payloads| && forall i | 0 <= i < |es| :: es[i] == decode(payloads[i])
  {
    seq(|payloads|, i requires 0 <= i < |payloads| => decode(payloads[i]))
  }

  /** `j` of the events `all` are behind a session that began as `s0` and is now `s`. */
  ghost predicate Midway(s0: Session, s: Session, all: seq<Event>, j: nat) {
    && WellFormed(s0) && WellFormed(s) && j <= |all|
    && Orderly(s0, Decoded(all)) && Orderly(s, all[j..]) && Orderly(s, Decoded(all[j..]))
    && Run(s, Decoded(all[j..])) == Run(s0, Decoded(all))
    && |Decoded(all)| == j + |Decoded(all[j..])|
  }

  lemma Begins(s: Session, all: seq<Event>)
    requires WellFormed(s) && Orderly(s, all)
    ensures Midway(s, s, all, 0) && Orderly(s, Decoded(all))
  {
    hide WellFormed;
    PipeStep(s, all);
    assert all[0..] == all;
  }

  lemma Goes(s0: Session, s: Session, all: seq<Event>, j: nat)
    requires Midway(s0, s, all, j) && j < |all|
    ensures InOrder(s, all[j])
    ensures if all[j].BadJson? then Apply(s, all[j]) == Run(s0, Decoded(all)) && |Decoded(all)| < |all|
            else Midway(s0, Apply(s, all[j]), all, j + 1)
  {
    hide WellFormed, Apply, Run, Orderly, Decoded, InOrder;
    assert all[j..][0] == all[j] && all[j..][1..] == all[j + 1..];
    PipeStep(s, all[j..]);
  }

  lemma Arrives(s0: Session, s: Session, all: seq<Event>)
    requires Midway(s0, s, all, |all|)
    ensures s == Run(s0, Decoded(all)) && |Decoded(all)| == |all|
  {
    hide WellFormed;
    PipeStep(s, all[|all|..]);
  }

  lemma {:induction false} FedAllGrows(r: S.Reader, lines: seq<string>)
    ensures r.out <= S.FedAll(r, lines).out
    decreases |lines|
  {
    hide TrimSpace;
    if lines != [] { FedAllGrows(S.Fed(r, lines[0]), lines[1..]); }
  }

  /** What the first lines dispatch is the first of what the whole input dispatches. */
  lemma FirstPayloads(s: string, limit: nat, i: nat)
    requires i <= |S.Scan(s, limit).lines|
    ensures S.FedAll(S.Reader("", []), S.Scan(s, limit).lines[..i]).out <= S.Parse(s, limit).0
  {
    hide S.Scan, S.FedAll;
    var lines := S.Scan(s, limit).lines;
    S.FedAllSplit(S.Reader("", []), lines[..i], lines[i..]);
    assert lines[..i] + lines[i..] == lines;
    FedAllGrows(S.FedAll(S.Reader("", []), lines[..i]), lines[i..]);
  }

  /** Reads lines, gathers data, and hands each payload on as soon as it is complete. The session afterwards is the run
      of the decoded payloads up to the first that is not JSON; the output is legal throughout. */
  method PipeResponsesSSE(s: string, limit: nat, decode: string -> Event, t: StreamTranslator) returns (r: PipeOutcome)
    requires t.Valid() && Orderly(t.view, Events(S.Parse(s, limit).0, decode))
    modifies t
    ensures t.Valid() && Legal(t.out)
    ensures var (payloads, tooLong) := S.Parse(s, limit);
      var read := Decoded(Events(payloads, decode));
      && Orderly(old(t.view), read) && t.view == Run(old(t.view), read)
      && r == if |read| < |payloads| then Read(InvalidJson) else if tooLong then LineTooLong
              else if t.view.Ended() then Read(Complete) else Read(UnexpectedEof)
    ensures t.view.Ended() ==> t.out != [] && Terminal(t.out[|t.out| - 1]) && t.view.client.AllClosed()
  {
    hide Agrees, Step, Replay, WellFormed, Apply, Run, Orderly, Decoded, InOrder, S.Scan, S.FedAll,
      TrimSpace, Midway, S.Flushed;
    var sc := S.Scan(s, limit);
    ghost var payloads, s0 := S.Parse(s, limit).0, t.view;
    ghost var all := Events(payloads, decode);
    ghost var done: seq<string> := [];
    Begins(s0, all);
    S.NothingFed(S.Reader("", []));
    var dataBuf := "";
    for i := 0 to |sc.lines|
      invariant t.Valid() && done <= payloads && Midway(s0, t.view, all, |done|)
      invariant S.Reader(dataBuf, done) == S.FedAll(S.Reader("", []), sc.lines[..i])
    {
      var line := sc.lines[i];
      S.FedAllAppend(S.Reader("", []), sc.lines[..i], line);
      assert sc.lines[..i + 1] == sc.lines[..i] + [line];
      if |line| == 0 {
        FirstPayloads(s, limit, i + 1);
        var ok;
        dataBuf, done, ok := Flush(dataBuf, done, decode, t, s0, payloads);
        if !ok {
          EndsInTerminal(t.view, t.out);
          return Read(InvalidJson);
        }
        continue;
      }
      if "data:" <= line {
        var payload := TrimSpace(line[5..]);
        if |dataBuf| > 0 { dataBuf := dataBuf + "\n"; }
        dataBuf := dataBuf + payload;
      }
    }
    assert sc.lines[..|sc.lines|] == sc.lines;
    if sc.tooLong {
      EndsInTerminal(t.view, t.out);
      Arrives(s0, t.view, all);
      return LineTooLong;
    }
    var ok;
    dataBuf, done, ok := Flush(dataBuf, done, decode, t, s0, payloads);
    EndsInTerminal(t.view, t.out);
    if !ok { return Read(InvalidJson); }
    Arrives(s0, t.view, all);
    r := if t.state.finished then Read(Complete) else Read(UnexpectedEof);
  }

  /** Hands the gathered data on, if there is any. */
  method Flush(
    dataBuf: string, ghost done: seq<string>, decode: string -> Event, t: StreamTranslator, ghost s0: Session,
    ghost payloads: seq<string>)
    returns (data: string, ghost next: seq<string>, ok: bool)
    requires t.Valid() && done <= payloads && Midway(s0, t.view, Events(payloads, decode), |done|)
    requires S.Flushed(S.Reader(dataBuf, done)).out <= payloads
    modifies t
    ensures t.Valid() && S.Reader(data, next) == S.Flushed(S.Reader(dataBuf, done))
    ensures var all := Events(payloads, decode);
      if ok then Midway(s0, t.view, all, |next|) else t.view == Run(s0, Decoded(all)) && |Decoded(all)| < |all|
  {
    hide Agrees, Step, Replay, WellFormed, Apply, Run, Orderly, Decoded, InOrder, Midway;
    if |dataBuf| == 0 { return dataBuf, done, true; }
    var payload := if dataBuf[|dataBuf| - 1] == '\n' then dataBuf[..|dataBuf| - 1] else dataBuf;
    ghost var all := Events(payloads, decode);
    assert payloads[|done|] == payload;
    Goes(s0, t.view, all, |done|);
    ok := t.ProcessData(decode(payload));
    return "", done + [payload], ok;
  }
}
