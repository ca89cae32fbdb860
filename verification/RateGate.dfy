/** The per-token gate: concurrent slots and a fixed-window rate limit. Times are in nanoseconds. */
module RateGate {
  import opened Text

  const Minute := 60_000_000_000

  datatype Window = Window(start: int, count: int)

  datatype Gate = Gate(window: Option<Window>, inflight: int)

  datatype Verdict = Admitted | RpmLimit | ConcurrencyLimit

  /** The window a call at `now` falls into: the current one, or a new one after a minute. */
  function WindowAt(g: Gate, now: int): Window {
    if g.window == None || now - g.window.value.start >= Minute then Window(now, 0) else g.window.value
  }

  function Decide(g: Gate, now: int, maxConcurrent: int, rpm: int): Verdict {
    if rpm > 0 && WindowAt(g, now).count >= rpm then RpmLimit
    else if maxConcurrent > 0 && g.inflight >= maxConcurrent then ConcurrencyLimit
    else Admitted
  }

  function AfterAcquire(g: Gate, now: int, maxConcurrent: int, rpm: int): Gate {
    var v := Decide(g, now, maxConcurrent, rpm);
    var w := if rpm > 0 then Some(WindowAt(g, now)) else g.window;
    if v == Admitted then
      Gate(if rpm > 0 then Some(w.value.(count := w.value.count + 1)) else w, g.inflight + 1)
    else Gate(w, g.inflight)
  }

  function AfterRelease(g: Gate): Gate {
    g.(inflight := if g.inflight > 0 then g.inflight - 1 else g.inflight)
  }

  /** A refused call takes no slot and counts for nothing: all it can do is open an empty window. */
  lemma RefusalIsFree(g: Gate, now: int, maxConcurrent: int, rpm: int)
    requires Decide(g, now, maxConcurrent, rpm) != Admitted
    ensures var n := AfterAcquire(g, now, maxConcurrent, rpm);
      && n.inflight == g.inflight
      && (n.window == g.window || n.window == Some(Window(now, 0)))
  {
  }

  // ---- whole runs ----

  /** How many of the times lie in [lo, hi). */
  function Count(times: seq<int>, lo: int, hi: int): nat {
    if times == [] then 0
    else
      var n := |times| - 1;
      Count(times[..n], lo, hi) + if lo <= times[n] < hi then 1 else 0
  }

  lemma CountMore(times: seq<int>, t: int, lo: int, hi: int)
    ensures Count(times + [t], lo, hi) == Count(times, lo, hi) + if lo <= t < hi then 1 else 0
  {
    assert (times + [t])[..|times|] == times;
  }

  lemma {:induction false} CountSplit(times: seq<int>, lo: int, mid: int, hi: int)
    requires lo <= mid <= hi
    ensures Count(times, lo, hi) == Count(times, lo, mid) + Count(times, mid, hi)
    decreases |times|
  {
    if times != [] { CountSplit(times[..|times| - 1], lo, mid, hi); }
  }

  lemma CountWithin(times: seq<int>, lo: int, a: int, b: int, hi: int)
    requires lo <= a && b <= hi
    ensures Count(times, a, b) <= Count(times, lo, hi)
  {
    if a <= b {
      CountSplit(times, lo, a, hi);
      CountSplit(times, a, b, hi);
    } else {
      CountNone(times, a, b);
    }
  }

  lemma {:induction false} CountNone(times: seq<int>, lo: int, hi: int)
    requires hi <= lo || forall i | 0 <= i < |times| :: !(lo <= times[i] < hi)
    ensures Count(times, lo, hi) == 0
    decreases |times|
  {
    if times != [] { CountNone(times[..|times| - 1], lo, hi); }
  }

  datatype Event = Acquire(now: int, maxConcurrent: int) | Release

  /** A run so far: the admitted calls, and the start of every window that was opened. */
  datatype Trace = Trace(gate: Gate, admitted: seq<int>, starts: seq<int>, clock: int)

  predicate Opens(g: Gate, now: int) {
    g.window == None || now - g.window.value.start >= Minute
  }

  function Step(tr: Trace, e: Event, rpm: int): Trace {
    match e
    case Release => tr.(gate := AfterRelease(tr.gate))
    case Acquire(now, max) =>
      Trace(AfterAcquire(tr.gate, now, max, rpm),
            if Decide(tr.gate, now, max, rpm) == Admitted then tr.admitted + [now] else tr.admitted,
            if rpm > 0 && Opens(tr.gate, now) then tr.starts + [now] else tr.starts, now)
  }

  function Run(tr: Trace, es: seq<Event>, rpm: int): Trace
    decreases |es|
  {
    if es == [] then tr else Run(Step(tr, es[0], rpm), es[1..], rpm)
  }

  predicate Monotone(now: int, es: seq<Event>)
    decreases |es|
  {
    es == [] || (if es[0].Acquire? then now <= es[0].now && Monotone(es[0].now, es[1..]) else Monotone(now, es[1..]))
  }

  predicate Apart(starts: seq<int>) {
    forall i, j | 0 <= i < j < |starts| :: starts[j] - starts[i] >= Minute
  }

  /** The calls admitted in window i. */
  function InWindow(tr: Trace, i: nat): nat
    requires i < |tr.starts|
  {
    Count(tr.admitted, tr.starts[i], if i + 1 < |tr.starts| then tr.starts[i + 1] else tr.clock + 1)
  }

  /** The calls admitted in the minute from x on, x included and x plus a minute not. */
  function InMinute(times: seq<int>, x: int): nat {
    Count(times, x, x + Minute)
  }

  ghost predicate Fair(tr: Trace, rpm: int) {
    && Apart(tr.starts)
    && (forall i | 0 <= i < |tr.starts| :: InWindow(tr, i) <= rpm)
    && (forall x :: InMinute(tr.admitted, x) <= 2 * rpm)
  }

  /** The current window is the last one opened, it has counted its calls, and the minute before it holds no more
      calls than one window. */
  ghost predicate Tracks(tr: Trace, rpm: int) {
    && (forall i | 0 <= i < |tr.admitted| :: tr.admitted[i] <= tr.clock)
    && (match tr.gate.window
        case None => tr.starts == [] && tr.admitted == []
        case Some(w) =>
          && tr.starts != [] && tr.starts[|tr.starts| - 1] == w.start <= tr.clock
          && (forall i | 0 <= i < |tr.admitted| :: tr.admitted[i] < w.start + Minute)
          && w.count == Count(tr.admitted, w.start, tr.clock + 1) <= rpm
          && Count(tr.admitted, w.start - Minute, w.start) <= rpm)
  }

  /** Nothing lies beyond the clock. */
  lemma CountToClock(times: seq<int>, lo: int, clock: int, hi: int)
    requires (forall i | 0 <= i < |times| :: times[i] <= clock) && hi > clock
    ensures Count(times, lo, hi) == Count(times, lo, clock + 1)
  {
    if lo <= clock + 1 {
      CountSplit(times, lo, clock + 1, hi);
      CountNone(times, clock + 1, hi);
    } else {
      CountNone(times, lo, hi);
      CountNone(times, lo, clock + 1);
    }
  }

  /** The clock moves on and the window for it is in place. */
  function Moved(tr: Trace, now: int): Trace {
    Trace(tr.gate.(window := Some(WindowAt(tr.gate, now))), tr.admitted,
          if Opens(tr.gate, now) then tr.starts + [now] else tr.starts, now)
  }

  function Taken(tr: Trace): Trace
    requires tr.gate.window.Some?
  {
    var w := tr.gate.window.value;
    Trace(Gate(Some(w.(count := w.count + 1)), tr.gate.inflight + 1), tr.admitted + [tr.clock], tr.starts, tr.clock)
  }

  lemma MovedTracks(tr: Trace, now: int, rpm: nat)
    requires Tracks(tr, rpm) && tr.clock <= now
    ensures Tracks(Moved(tr, now), rpm)
  {
    hide Count;
    match tr.gate.window
    case None =>
      CountNone(tr.admitted, now, now + 1);
      CountNone(tr.admitted, now - Minute, now);
    case Some(w) =>
      CountToClock(tr.admitted, w.start, tr.clock, now + 1);
      if Opens(tr.gate, now) {
        CountNone(tr.admitted, now, now + 1);
        CountWithin(tr.admitted, w.start, now - Minute, now, now + 1);
      }
  }

  lemma MovedFair(tr: Trace, now: int, rpm: nat)
    requires Tracks(tr, rpm) && Fair(tr, rpm) && tr.clock <= now
    ensures Fair(Moved(tr, now), rpm)
  {
    hide Count, InMinute;
    var n := Moved(tr, now);
    match tr.gate.window
    case None => CountNone(tr.admitted, now, now + 1);
    case Some(w) =>
      CountToClock(tr.admitted, w.start, tr.clock, now + 1);
      CountWithin(tr.admitted, w.start, w.start, now, now + 1);
      CountNone(tr.admitted, now + 1, now + 1);
      if Opens(tr.gate, now) { CountNone(tr.admitted, now, now + 1); }
      forall i | 0 <= i < |n.starts| ensures InWindow(n, i) <= rpm {
        if i + 1 < |tr.starts| { assert InWindow(n, i) == InWindow(tr, i); }
      }
  }

  lemma TakenTracks(tr: Trace, rpm: nat)
    requires Tracks(tr, rpm) && tr.gate.window.Some? && tr.gate.window.value.count < rpm
    requires tr.clock < tr.gate.window.value.start + Minute
    ensures Tracks(Taken(tr), rpm)
  {
    hide Count;
    var w := tr.gate.window.value;
    CountMore(tr.admitted, tr.clock, w.start, tr.clock + 1);
    CountMore(tr.admitted, tr.clock, w.start - Minute, w.start);
  }

  lemma TakenFair(tr: Trace, rpm: nat)
    requires Tracks(tr, rpm) && Fair(tr, rpm) && tr.gate.window.Some? && tr.gate.window.value.count < rpm
    requires tr.clock < tr.gate.window.value.start + Minute
    ensures Fair(Taken(tr), rpm)
  {
    hide Count;
    var n, w := Taken(tr), tr.gate.window.value;
    TakenTracks(tr, rpm);
    forall i | 0 <= i < |n.starts| ensures InWindow(n, i) <= rpm {
      CountMore(tr.admitted, tr.clock, tr.starts[i], if i + 1 < |tr.starts| then tr.starts[i + 1] else tr.clock + 1);
      assert InWindow(tr, i) <= rpm;
      if i + 1 < |tr.starts| { LastStart(tr.starts, i + 1); }
    }
    forall x ensures InMinute(n.admitted, x) <= 2 * rpm {
      CountMore(tr.admitted, tr.clock, x, x + Minute);
      assert InMinute(tr.admitted, x) <= 2 * rpm;
      if x <= tr.clock < x + Minute {
        CountToClock(n.admitted, w.start, tr.clock, x + Minute);
        if x >= w.start {
          CountWithin(n.admitted, w.start, x, x + Minute, x + Minute);
        } else {
          CountSplit(n.admitted, x, w.start, x + Minute);
          CountWithin(n.admitted, w.start - Minute, x, w.start, w.start);
        }
      }
    }
  }

  lemma LastStart(starts: seq<int>, i: nat)
    requires Apart(starts) && i < |starts|
    ensures starts[i] <= starts[|starts| - 1]
  {
  }

  lemma StepFair(tr: Trace, e: Event, rpm: nat)
    requires rpm > 0 && Tracks(tr, rpm) && Fair(tr, rpm) && (e.Acquire? ==> tr.clock <= e.now)
    ensures Tracks(Step(tr, e, rpm), rpm) && Fair(Step(tr, e, rpm), rpm)
  {
    if e.Acquire? {
      MovedTracks(tr, e.now, rpm);
      MovedFair(tr, e.now, rpm);
      if Decide(tr.gate, e.now, e.maxConcurrent, rpm) == Admitted {
        TakenTracks(Moved(tr, e.now), rpm);
        TakenFair(Moved(tr, e.now), rpm);
      }
      assert Step(tr, e, rpm)
          == if Decide(tr.gate, e.now, e.maxConcurrent, rpm) == Admitted then Taken(Moved(tr, e.now)) else Moved(tr, e.now);
    } else {
      ReleaseFair(tr, rpm);
    }
  }

  lemma ReleaseFair(tr: Trace, rpm: nat)
    requires Tracks(tr, rpm) && Fair(tr, rpm)
    ensures Tracks(Step(tr, Release, rpm), rpm) && Fair(Step(tr, Release, rpm), rpm)
  {
    assert forall i | 0 <= i < |tr.starts| :: InWindow(Step(tr, Release, rpm), i) == InWindow(tr, i);
  }

  lemma {:induction false} RunFair(tr: Trace, es: seq<Event>, rpm: nat)
    requires rpm > 0 && Tracks(tr, rpm) && Fair(tr, rpm) && Monotone(tr.clock, es)
    ensures Fair(Run(tr, es, rpm), rpm)
    decreases |es|
  {
    hide Tracks, Fair;
    if es != [] {
      StepFair(tr, es[0], rpm);
      RunFair(Step(tr, es[0], rpm), es[1..], rpm);
    }
  }

  /** Over every run with a fixed limit: windows start a minute apart, each admits at most `rpm` calls, and no minute
      holds more than twice that. */
  lemma RpmBound(now: int, es: seq<Event>, rpm: nat)
    requires rpm > 0 && Monotone(now, es)
    ensures Fair(Run(Trace(Gate(None, 0), [], [], now), es, rpm), rpm)
  {
    RunFair(Trace(Gate(None, 0), [], [], now), es, rpm);
  }

  // ---- the bound is reached, and by a refusal only ----

  /** Calls of a token with one slot, each over before the next. */
  function Calls(now: int, n: nat): seq<Event> {
    if n == 0 then [] else [Acquire(now, 1), Release] + Calls(now, n - 1)
  }

  /** The token's limit is the same all along. */
  predicate OneSlot(es: seq<Event>) {
    forall i | 0 <= i < |es| :: es[i].Acquire? ==> es[i].maxConcurrent == 1
  }

  lemma {:induction false} CallsOneSlot(now: int, n: nat)
    ensures OneSlot(Calls(now, n))
  {
    if n > 0 { CallsOneSlot(now, n - 1); }
  }

  function Times(now: int, n: nat): seq<int> {
    seq(n, i => now)
  }

  lemma {:induction false} RunSplit(tr: Trace, a: seq<Event>, b: seq<Event>, rpm: int)
    ensures Run(tr, a + b, rpm) == Run(Run(tr, a, rpm), b, rpm)
    decreases |a|
  {
    if a == [] {
      assert a + b == b;
    } else {
      assert (a + b)[0] == a[0] && (a + b)[1..] == a[1..] + b;
      RunSplit(Step(tr, a[0], rpm), a[1..], b, rpm);
    }
  }

  /** Calls that fit into the window they fall into are all admitted. */
  lemma {:induction false} CallsAdmitted(tr: Trace, now: int, n: nat, rpm: int)
    requires rpm > 0 && WindowAt(tr.gate, now).count + n <= rpm && tr.gate.inflight == 0
    ensures var r, w := Run(tr, Calls(now, n), rpm), WindowAt(tr.gate, now);
      && r.admitted == tr.admitted + Times(now, n) && r.gate.inflight == 0
      && (n > 0 ==> r.gate.window == Some(w.(count := w.count + n)) && r.clock == now)
    decreases n
  {
    var w := WindowAt(tr.gate, now);
    if n == 0 {
      assert tr.admitted + Times(now, 0) == tr.admitted;
    } else {
      var m := Step(Step(tr, Acquire(now, 1), rpm), Release, rpm);
      CallReturns(tr, now, Calls(now, n - 1), rpm);
      assert WindowAt(m.gate, now) == w.(count := w.count + 1);
      CallsAdmitted(m, now, n - 1, rpm);
      assert tr.admitted + [now] + Times(now, n - 1) == tr.admitted + Times(now, n);
    }
  }

  lemma CallReturns(tr: Trace, now: int, more: seq<Event>, rpm: int)
    ensures Run(tr, [Acquire(now, 1), Release] + more, rpm)
         == Run(Step(Step(tr, Acquire(now, 1), rpm), Release, rpm), more, rpm)
  {
    var es := [Acquire(now, 1), Release] + more;
    assert es[1..][0] == Release && es[1..][1..] == more;
  }

  lemma {:induction false} CountTimes(times: seq<int>, t: int, n: nat, lo: int, hi: int)
    ensures Count(times + Times(t, n), lo, hi) == Count(times, lo, hi) + if lo <= t < hi then n else 0
    decreases n
  {
    if n == 0 {
      assert times + Times(t, 0) == times;
    } else {
      CountTimes(times, t, n - 1, lo, hi);
      CountMore(times + Times(t, n - 1), t, lo, hi);
      assert times + Times(t, n - 1) + [t] == times + Times(t, n);
    }
  }

  lemma {:induction false} CallsMonotone(now: int, later: int, n: nat, more: seq<Event>)
    requires now <= later && Monotone(later, more)
    ensures Monotone(now, Calls(later, n) + more)
    decreases n
  {
    if n == 0 {
      assert Calls(later, 0) + more == more;
      MonotoneEarlier(now, later, more);
    } else {
      CallsMonotone(later, later, n - 1, more);
      var rest := Calls(later, n - 1) + more;
      assert Calls(later, n) + more == [Acquire(later, 1), Release] + rest;
      assert ([Acquire(later, 1), Release] + rest)[1..][1..] == rest;
    }
  }

  lemma {:induction false} MonotoneEarlier(now: int, later: int, es: seq<Event>)
    requires now <= later && Monotone(later, es)
    ensures Monotone(now, es)
    decreases |es|
  {
    if es != [] && es[0].Release? { MonotoneEarlier(now, later, es[1..]); }
  }

  /** A first call holds the one slot while a second is refused for it, a minute later; then it returns. */
  function Opening(): seq<Event> {
    [Acquire(0, 1), Acquire(Minute, 1), Release]
  }

  lemma OpenedByRefusal(rpm: nat)
    requires rpm > 0
    ensures var s := Run(Trace(Gate(None, 0), [], [], 0), Opening(), rpm);
      s.admitted == [0] && s.gate == Gate(Some(Window(Minute, 0)), 0)
  {
    var first := Opening();
    assert first[1..][1..] == [Release] && [Release][1..] == [];
    var s0 := Trace(Gate(None, 0), [], [], 0);
    var s1 := Step(s0, first[0], rpm);
    assert s1.gate == Gate(Some(Window(0, 1)), 1) && s1.admitted == [0];
    var s2 := Step(s1, first[1], rpm);
    assert s2.gate == Gate(Some(Window(Minute, 0)), 1) && s2.admitted == [0];
    var s3 := Step(s2, Release, rpm);
    assert Run(s0, first, rpm) == Run(s1, first[1..], rpm) == Run(s2, [Release], rpm) == Run(s3, [], rpm) == s3;
  }

  /** For every limit the bound is reached, by a token with one slot all along: a call refused for concurrency opens a
      window without counting in it, and then `rpm` calls at its end and `rpm` at the start of the next, each over
      before the next, lie within a minute. */
  lemma TwiceIsReached(rpm: nat) returns (es: seq<Event>)
    requires rpm > 0
    ensures Monotone(0, es) && OneSlot(es)
    ensures InMinute(Run(Trace(Gate(None, 0), [], [], 0), es, rpm).admitted, 2 * Minute - 1) == 2 * rpm
  {
    var m := Minute;
    var s0 := Trace(Gate(None, 0), [], [], 0);
    var late, next := Calls(2 * m - 1, rpm), Calls(2 * m, rpm);
    es := Opening() + late + next;
    ReachedMonotone(rpm);
    OpenedByRefusal(rpm);
    ReachedOneSlot(rpm);
    hide Run, Step, Monotone, Calls, OneSlot, Opening, Times, InMinute;
    var s3 := Run(s0, Opening(), rpm);
    CallsAdmitted(s3, 2 * m - 1, rpm, rpm);
    CallsAdmitted(Run(s3, late, rpm), 2 * m, rpm, rpm);
    RunSplit(s0, Opening() + late, next, rpm);
    RunSplit(s0, Opening(), late, rpm);
    ReachedCount(rpm);
  }

  lemma ReachedCount(rpm: nat)
    ensures InMinute([0] + Times(2 * Minute - 1, rpm) + Times(2 * Minute, rpm), 2 * Minute - 1) == 2 * rpm
  {
    var m := Minute;
    hide Count, Times;
    CountTimes([0] + Times(2 * m - 1, rpm), 2 * m, rpm, 2 * m - 1, 3 * m - 1);
    CountTimes([0], 2 * m - 1, rpm, 2 * m - 1, 3 * m - 1);
    CountNone([0], 2 * m - 1, 3 * m - 1);
  }

  lemma ReachedOneSlot(rpm: nat)
    ensures OneSlot(Opening() + Calls(2 * Minute - 1, rpm) + Calls(2 * Minute, rpm))
  {
    CallsOneSlot(2 * Minute - 1, rpm);
    CallsOneSlot(2 * Minute, rpm);
    hide Calls;
  }

  lemma ReachedMonotone(rpm: nat)
    ensures Monotone(0, Opening() + Calls(2 * Minute - 1, rpm) + Calls(2 * Minute, rpm))
  {
    var m := Minute;
    assert Calls(2 * m, rpm) + [] == Calls(2 * m, rpm);
    CallsMonotone(2 * m, 2 * m, rpm, []);
    CallsMonotone(m, 2 * m - 1, rpm, Calls(2 * m, rpm)) by {
      MonotoneEarlier(2 * m - 1, 2 * m, Calls(2 * m, rpm));
    }
    var rest := Calls(2 * m - 1, rpm) + Calls(2 * m, rpm);
    var es := Opening() + Calls(2 * m - 1, rpm) + Calls(2 * m, rpm);
    assert es[1..] == [Acquire(m, 1), Release] + rest && es[1..][1..] == [Release] + rest && es[1..][1..][1..] == rest;
  }

  /** No call of the run is refused for concurrency. */
  predicate Unhindered(tr: Trace, es: seq<Event>, rpm: int)
    decreases |es|
  {
    es == [] || (
      && (es[0].Acquire? ==> Decide(tr.gate, es[0].now, es[0].maxConcurrent, rpm) != ConcurrencyLimit)
      && Unhindered(Step(tr, es[0], rpm), es[1..], rpm))
  }

  /** The current window holds the call that opened it, so the minute before it misses one call of a full window. */
  ghost predicate Tight(tr: Trace, rpm: int) {
    && (forall x :: InMinute(tr.admitted, x) <= 2 * rpm - 1)
    && (tr.gate.window.Some? ==>
          var start := tr.gate.window.value.start;
          Count(tr.admitted, start, start + 1) >= 1 && Count(tr.admitted, start - Minute + 1, start) <= rpm - 1)
  }

  lemma {:induction false} NoCalls(lo: int, hi: int)
    ensures Count([], lo, hi) == 0
  {
  }

  /** A minute that holds the present: what lies before the window, and what lies in it. */
  lemma MinuteTight(tr: Trace, rpm: nat, x: int)
    requires rpm > 0 && Tracks(tr, rpm) && tr.gate.window.Some? && x <= tr.clock < x + Minute
    requires tr.clock < tr.gate.window.value.start + Minute
    requires var start := tr.gate.window.value.start; Count(tr.admitted, start - Minute + 1, start) <= rpm - 1
    ensures InMinute(tr.admitted, x) <= 2 * rpm - 1
  {
    hide Count;
    var start := tr.gate.window.value.start;
    CountToClock(tr.admitted, start, tr.clock, x + Minute);
    if x >= start {
      CountWithin(tr.admitted, start, x, x + Minute, x + Minute);
    } else {
      CountSplit(tr.admitted, x, start, x + Minute);
      CountWithin(tr.admitted, start - Minute + 1, x, start, start);
    }
  }

  lemma StepTight(tr: Trace, e: Event, rpm: nat)
    requires rpm > 0 && Tracks(tr, rpm) && Fair(tr, rpm) && Tight(tr, rpm) && (e.Acquire? ==> tr.clock <= e.now)
    requires e.Acquire? ==> Decide(tr.gate, e.now, e.maxConcurrent, rpm) != ConcurrencyLimit
    ensures Tight(Step(tr, e, rpm), rpm)
  {
    hide Count, Tracks, Fair, InMinute;
    if e.Acquire? && Decide(tr.gate, e.now, e.maxConcurrent, rpm) == Admitted {
      StepFair(tr, e, rpm);
      var n := Step(tr, e, rpm);
      assert n.admitted == tr.admitted + [e.now] && n.clock == e.now;
      if Opens(tr.gate, e.now) { OpenedTight(tr, e.now, rpm); } else { StayedTight(tr, e.now, rpm); }
      MinutesTight(tr, n, rpm);
    }
  }

  lemma MinutesTight(tr: Trace, n: Trace, rpm: nat)
    requires rpm > 0 && Tracks(n, rpm) && n.gate.window.Some? && n.clock < n.gate.window.value.start + Minute
    requires n.admitted == tr.admitted + [n.clock] && forall x :: InMinute(tr.admitted, x) <= 2 * rpm - 1
    requires var start := n.gate.window.value.start; Count(n.admitted, start - Minute + 1, start) <= rpm - 1
    ensures forall x :: InMinute(n.admitted, x) <= 2 * rpm - 1
  {
    hide Count, Tracks;
    forall x ensures InMinute(n.admitted, x) <= 2 * rpm - 1 {
      CountMore(tr.admitted, n.clock, x, x + Minute);
      assert InMinute(tr.admitted, x) <= 2 * rpm - 1;
      if x <= n.clock < x + Minute { MinuteTight(n, rpm, x); }
    }
  }

  /** A call that opens a window is in it; the window before has a call more than a minute back. */
  lemma OpenedTight(tr: Trace, now: int, rpm: nat)
    requires rpm > 0 && Tracks(tr, rpm) && Tight(tr, rpm) && Opens(tr.gate, now) && tr.clock <= now
    ensures Count(tr.admitted + [now], now, now + 1) >= 1
    ensures Count(tr.admitted + [now], now - Minute + 1, now) <= rpm - 1
  {
    hide Count, InMinute;
    CountMore(tr.admitted, now, now, now + 1);
    CountMore(tr.admitted, now, now - Minute + 1, now);
    match tr.gate.window
    case None => NoCalls(now - Minute + 1, now);
    case Some(w) =>
      CountToClock(tr.admitted, w.start, tr.clock, now + 1);
      CountSplit(tr.admitted, w.start, w.start + 1, now + 1);
      CountWithin(tr.admitted, w.start + 1, now - Minute + 1, now, now + 1);
  }

  lemma StayedTight(tr: Trace, now: int, rpm: nat)
    requires rpm > 0 && Tracks(tr, rpm) && Tight(tr, rpm) && !Opens(tr.gate, now) && tr.clock <= now
    ensures var start := tr.gate.window.value.start;
      && Count(tr.admitted + [now], start, start + 1) >= 1
      && Count(tr.admitted + [now], start - Minute + 1, start) <= rpm - 1
  {
    hide Count, InMinute;
    var start := tr.gate.window.value.start;
    CountMore(tr.admitted, now, start, start + 1);
    CountMore(tr.admitted, now, start - Minute + 1, start);
  }

  lemma {:induction false} RunTight(tr: Trace, es: seq<Event>, rpm: nat)
    requires rpm > 0 && Tracks(tr, rpm) && Fair(tr, rpm) && Tight(tr, rpm)
    requires Monotone(tr.clock, es) && Unhindered(tr, es, rpm)
    ensures Tight(Run(tr, es, rpm), rpm)
    decreases |es|
  {
    hide Tracks, Fair, Tight;
    if es != [] {
      StepFair(tr, es[0], rpm);
      StepTight(tr, es[0], rpm);
      RunTight(Step(tr, es[0], rpm), es[1..], rpm);
    }
  }

  /** Without a refusal for concurrency no minute holds 2·rpm calls. */
  lemma UnhinderedBound(now: int, es: seq<Event>, rpm: nat, x: int)
    requires rpm > 0 && Monotone(now, es) && Unhindered(Trace(Gate(None, 0), [], [], now), es, rpm)
    ensures InMinute(Run(Trace(Gate(None, 0), [], [], now), es, rpm).admitted, x) <= 2 * rpm - 1
  {
    RunTight(Trace(Gate(None, 0), [], [], now), es, rpm);
  }
}
