/** Shard leases with expiry: the shared table, what each worker was last told, and every interleaving of calls. */
module ShardLeases {
  datatype Lease = Lease(shard: int, worker: string, version: int, exp: int)

  type Table = map<int, Lease>

  /** `acks` is what a worker may rely on: the expiry it was last told for a shard and has not given back. */
  datatype State = State(table: Table, acks: map<(string, int), int>, clock: int)

  datatype Call =
    | Acquire(worker: string, shard: int, ttl: int)
    | Renew(worker: string, shard: int, ttl: int)
    | Release(worker: string, shard: int)

  datatype Timed = Timed(now: int, call: Call)

  // ---- the table operations ----

  predicate Grantable(t: Table, now: int, shard: int, worker: string) {
    !(shard in t && t[shard].exp > now && t[shard].worker != worker)
  }

  function Granted(t: Table, now: int, shard: int, worker: string, ttl: int): Lease {
    Lease(shard, worker, (if shard in t then t[shard].version else 0) + 1, now + ttl)
  }

  predicate Owned(t: Table, shard: int, worker: string) {
    shard in t && t[shard].worker == worker
  }

  function Step(s: State, c: Timed): State {
    var key := (c.call.worker, c.call.shard);
    var shard, worker, now := c.call.shard, c.call.worker, c.now;
    match c.call
    case Acquire(_, _, ttl) =>
      if Grantable(s.table, now, shard, worker) then
        State(s.table[shard := Granted(s.table, now, shard, worker, ttl)], s.acks[key := now + ttl], now)
      else s.(clock := now)
    case Renew(_, _, ttl) =>
      if Owned(s.table, shard, worker) then
        State(s.table[shard := s.table[shard].(exp := now + ttl)], s.acks[key := now + ttl], now)
      else s.(clock := now)
    case Release(_, _) =>
      State(if Owned(s.table, shard, worker) then s.table - {shard} else s.table, s.acks - {key}, now)
  }

  function Run(s: State, cs: seq<Timed>): State
    decreases |cs|
  {
    if cs == [] then s else Run(Step(s, cs[0]), cs[1..])
  }

  predicate Monotone(now: int, cs: seq<Timed>)
    decreases |cs|
  {
    cs == [] || (now <= cs[0].now && Monotone(cs[0].now, cs[1..]))
  }

  // ---- what is seen from outside ----

  /** From one state to the next: one call, or time passing, or nothing. */
  ghost predicate OneStep(s: State, t: State) {
    || t == s
    || (s.clock <= t.clock && t == s.(clock := t.clock))
    || exists call :: t == Step(s, Timed(s.clock, call))
  }

  ghost predicate Unbroken(ss: seq<State>) {
    forall i | 0 <= i < |ss| - 1 :: OneStep(ss[i], ss[i + 1])
  }

  /** Time has gone on, and what `worker` was told is still what it was last told. */
  ghost predicate Kept(worker: string, s: State, t: State) {
    && s.clock <= t.clock
    && (forall k :: (worker, k) in t.acks <==> (worker, k) in s.acks)
    && (forall k | (worker, k) in s.acks :: t.acks[(worker, k)] == s.acks[(worker, k)])
  }

  lemma KeptTwice(worker: string, s: State, t: State, u: State)
    requires Kept(worker, s, t) && Kept(worker, t, u)
    ensures Kept(worker, s, u)
  {
  }

  lemma KeptByOthers(worker: string, s: State, call: Call)
    requires call.worker != worker
    ensures Kept(worker, s, Step(s, Timed(s.clock, call)))
  {
  }

  // ---- exclusion ----

  predicate Holds(s: State, worker: string, shard: int, now: int) {
    (worker, shard) in s.acks && s.acks[(worker, shard)] > now
  }

  /** Every unexpired acknowledgement is the table's own entry. */
  ghost predicate Exclusive(s: State) {
    forall w, k | Holds(s, w, k, s.clock) :: Owned(s.table, k, w) && s.table[k].exp == s.acks[(w, k)]
  }

  lemma StepExclusive(s: State, c: Timed)
    requires Exclusive(s) && s.clock <= c.now
    ensures Exclusive(Step(s, c)) && Step(s, c).clock == c.now
  {
    var n := Step(s, c);
    forall w, k | Holds(n, w, k, n.clock) ensures Owned(n.table, k, w) && n.table[k].exp == n.acks[(w, k)] {
      if (w, k) != (c.call.worker, c.call.shard) {
        assert Holds(s, w, k, s.clock);
      }
    }
  }

  lemma {:induction false} RunExclusive(s: State, cs: seq<Timed>)
    requires Exclusive(s) && Monotone(s.clock, cs)
    ensures Exclusive(Run(s, cs))
    decreases |cs|
  {
    if cs != [] {
      StepExclusive(s, cs[0]);
      RunExclusive(Step(s, cs[0]), cs[1..]);
    }
  }

  /** Whatever the workers call in whatever order, at any later time `now` an unexpired lease is the table's, and
      no shard has two holders. */
  lemma NeverTwoHolders(cs: seq<Timed>, start: int, now: int, v: string, w: string, shard: int)
    requires Monotone(start, cs) && now >= Run(State(map[], map[], start), cs).clock
    requires var s := Run(State(map[], map[], start), cs);
      Holds(s, v, shard, now) && Holds(s, w, shard, now)
    ensures v == w && Owned(Run(State(map[], map[], start), cs).table, shard, v)
  {
    RunExclusive(State(map[], map[], start), cs);
    var s := Run(State(map[], map[], start), cs);
    assert Holds(s, v, shard, s.clock) && Holds(s, w, shard, s.clock);
  }

  /** Every entry of the table is its owner's acknowledgement. */
  ghost predicate Acked(s: State) {
    forall k | k in s.table :: (s.table[k].worker, k) in s.acks && s.acks[(s.table[k].worker, k)] == s.table[k].exp
  }

  lemma {:induction false} RunAcked(s: State, cs: seq<Timed>)
    requires Acked(s)
    ensures Acked(Run(s, cs))
    decreases |cs|
  {
    if cs != [] { RunAcked(Step(s, cs[0]), cs[1..]); }
  }

  /** Over every run: a worker holds a shard by what it was last told if and only if the table says so. */
  lemma HeldIffTable(cs: seq<Timed>, start: int, now: int, w: string, shard: int)
    requires Monotone(start, cs) && now >= Run(State(map[], map[], start), cs).clock
    ensures var s := Run(State(map[], map[], start), cs);
      Holds(s, w, shard, now) <==> Owned(s.table, shard, w) && s.table[shard].exp > now
  {
    var s0 := State(map[], map[], start);
    RunExclusive(s0, cs);
    RunAcked(s0, cs);
    var s := Run(s0, cs);
    assert Holds(s, w, shard, now) ==> Holds(s, w, shard, s.clock);
  }

  /** Having been told of a lease is no proof of it. One worker takes a shard for `d` seconds and another tries
      `t` seconds later: the first is still on record with it, and holds it if and only if t < d; else the second does. */
  lemma ToldIsNoProof(v: string, w: string, d: int, t: nat, e: int)
    requires v != w && e > 0
    ensures var s := Run(State(map[], map[], 0), [Timed(0, Acquire(v, 0, d)), Timed(t, Acquire(w, 0, e))]);
      && (v, 0) in s.acks
      && (Holds(s, v, 0, t) <==> t < d)
      && (Holds(s, w, 0, t) <==> d <= t)
  {
    TwoCalls(State(map[], map[], 0), Timed(0, Acquire(v, 0, d)), Timed(t, Acquire(w, 0, e)));
  }

  lemma TwoCalls(s: State, a: Timed, b: Timed)
    ensures Run(s, [a, b]) == Step(Step(s, a), b)
  {
    assert [a, b][1..] == [b] && [b][1..] == [];
    assert Run(s, [a, b]) == Run(Step(s, a), [b]) == Run(Step(Step(s, a), b), []);
  }

  predicate By(cs: seq<Timed>, worker: string, shard: int) {
    exists i | 0 <= i < |cs| :: cs[i].call.worker == worker && cs[i].call.shard == shard
  }

  /** What other workers call never takes an acknowledgement back. */
  lemma {:induction false} OthersKeepAck(s: State, cs: seq<Timed>, worker: string, shard: int)
    requires !By(cs, worker, shard) && (worker, shard) in s.acks
    ensures (worker, shard) in Run(s, cs).acks && Run(s, cs).acks[(worker, shard)] == s.acks[(worker, shard)]
    decreases |cs|
  {
    if cs != [] {
      OthersKeepAck(Step(s, cs[0]), cs[1..], worker, shard);
    }
  }

  /** A granted or renewed lease lasts to its expiry against anything other workers do before then. */
  lemma LeaseLasts(s: State, c: Timed, cs: seq<Timed>, now: int)
    requires Exclusive(s) && Monotone(s.clock, [c] + cs) && !By(cs, c.call.worker, c.call.shard)
    requires match c.call
      case Acquire(w, k, _) => Grantable(s.table, c.now, k, w)
      case Renew(w, k, _) => Owned(s.table, k, w)
      case Release(w, k) => false
    requires Run(Step(s, c), cs).clock <= now < c.now + c.call.ttl
    ensures var n := Run(Step(s, c), cs);
      && Owned(n.table, c.call.shard, c.call.worker)
      && forall w | w != c.call.worker :: !Grantable(n.table, now, c.call.shard, w)
  {
    assert ([c] + cs)[1..] == cs;
    StepExclusive(s, c);
    RunExclusive(Step(s, c), cs);
    OthersKeepAck(Step(s, c), cs, c.call.worker, c.call.shard);
    assert Holds(Run(Step(s, c), cs), c.call.worker, c.call.shard, Run(Step(s, c), cs).clock);
  }

  /** The clock must not go back: a lease taken over at its expiry is then held twice. */
  lemma ClockMustNotGoBack(v: string, w: string)
    requires v != w
    ensures var cs := [Timed(0, Acquire(v, 0, 10)), Timed(10, Acquire(w, 0, 10))];
      var s := Run(State(map[], map[], 0), cs);
      Holds(s, v, 0, 9) && Holds(s, w, 0, 9)
  {
    TwoCalls(State(map[], map[], 0), Timed(0, Acquire(v, 0, 10)), Timed(10, Acquire(w, 0, 10)));
  }

  /** A grant raises the version of a shard as long as its entry stands; a release starts the count again. */
  lemma VersionGrows(s: State, c: Timed, shard: int)
    requires shard in s.table
    ensures var n := Step(s, c);
      if shard in n.table then
        n.table[shard].version == s.table[shard].version
          + if c.call.Acquire? && c.call.shard == shard && Grantable(s.table, c.now, shard, c.call.worker) then 1 else 0
      else c.call == Release(s.table[shard].worker, shard)
  {
  }
}
