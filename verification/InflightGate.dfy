/** The increment-then-check gate that limits the leases on one account across all workers. */
module InflightGate {

  /** Between the increment and the check, `Counted(n)` remembers what the increment answered. */
  datatype Phase = Counted(n: int) | Leased | Finished

  datatype Attempt = Attempt(account: string, phase: Phase)

  type Counter = map<string, int>

  datatype State = State(counter: Counter, attempts: map<nat, Attempt>)

  /** The state calls of the attempts of all workers, one at a time. */
  datatype Move = Count(id: nat, account: string) | Refuse(id: nat) | GiveUp(id: nat) | Grant(id: nat) | Return(id: nat)

  function Value(c: Counter, account: string): int {
    if account in c then c[account] else 0
  }

  function Increased(c: Counter, account: string): Counter {
    c[account := Value(c, account) + 1]
  }

  /** One less; at zero the entry goes. */
  function Decreased(c: Counter, account: string): Counter {
    if Value(c, account) - 1 <= 0 then c - {account} else c[account := Value(c, account) - 1]
  }

  /** An attempt is counted once, checked against what its own increment answered, and returned at most once. */
  predicate Enabled(s: State, max: int, m: Move) {
    match m
    case Count(id, _) => id !in s.attempts
    case Refuse(id) => id in s.attempts && s.attempts[id].phase.Counted? && s.attempts[id].phase.n > max
    case GiveUp(id) => id in s.attempts && s.attempts[id].phase.Counted? && s.attempts[id].phase.n <= max
    case Grant(id) => id in s.attempts && s.attempts[id].phase.Counted? && s.attempts[id].phase.n <= max
    case Return(id) => id in s.attempts && s.attempts[id].phase.Leased?
  }

  function Apply(s: State, m: Move): State {
    match m
    case Count(id, account) =>
      State(Increased(s.counter, account), s.attempts[id := Attempt(account, Counted(Value(s.counter, account) + 1))])
    case Grant(id) =>
      if id in s.attempts then s.(attempts := s.attempts[id := s.attempts[id].(phase := Leased)]) else s
    case _ =>
      if m.id in s.attempts
      then State(Decreased(s.counter, s.attempts[m.id].account), s.attempts[m.id := s.attempts[m.id].(phase := Finished)])
      else s
  }

  /** The attempts on an account that have counted themselves and not yet counted themselves off. */
  function Active(s: State, account: string): set<nat> {
    set i | i in s.attempts && s.attempts[i].account == account && !s.attempts[i].phase.Finished?
  }

  /** The active attempts that hold a lease or are about to. */
  function Admitted(s: State, max: int, account: string): set<nat> {
    set i | i in Active(s, account) && (s.attempts[i].phase.Leased? || s.attempts[i].phase.n <= max)
  }

  function Leases(s: State, account: string): set<nat> {
    set i | i in s.attempts && s.attempts[i] == Attempt(account, Leased)
  }

  ghost predicate Gated(s: State, max: int) {
    && (forall a :: Value(s.counter, a) == |Active(s, a)|)
    && (forall a | a in s.counter :: s.counter[a] > 0)
    && (forall a :: |Admitted(s, max, a)| <= max)
  }

  lemma SmallerSet(a: set<nat>, b: set<nat>)
    requires a <= b
    ensures |a| <= |b|
  {
    var rest := b - a;
    assert b == a + rest;
  }

  lemma CountGated(s: State, max: int, id: nat, account: string)
    requires Gated(s, max) && id !in s.attempts
    ensures Gated(Apply(s, Count(id, account)), max)
  {
    var n := Apply(s, Count(id, account));
    forall a ensures Value(n.counter, a) == |Active(n, a)| && |Admitted(n, max, a)| <= max {
      if a == account { CountedHere(s, max, id, account); } else { CountedElsewhere(s, max, id, account, a); }
    }
    assert Value(s.counter, account) >= 0;
  }

  lemma CountedElsewhere(s: State, max: int, id: nat, account: string, a: string)
    requires id !in s.attempts && a != account
    ensures var n := Apply(s, Count(id, account));
      && Value(n.counter, a) == Value(s.counter, a)
      && Active(n, a) == Active(s, a) && Admitted(n, max, a) == Admitted(s, max, a)
  {
  }

  /** An attempt admitted by its own answer counts everyone admitted before it. */
  lemma CountedHere(s: State, max: int, id: nat, account: string)
    requires Value(s.counter, account) == |Active(s, account)| && |Admitted(s, max, account)| <= max
    requires id !in s.attempts
    ensures var n := Apply(s, Count(id, account));
      Value(n.counter, account) == |Active(n, account)| && |Admitted(n, max, account)| <= max
  {
    var n := Apply(s, Count(id, account));
    assert Active(n, account) == Active(s, account) + {id};
    if Value(s.counter, account) + 1 > max {
      assert Admitted(n, max, account) == Admitted(s, max, account);
    } else {
      SmallerSet(Admitted(n, max, account), Active(n, account));
    }
  }

  lemma GrantGated(s: State, max: int, id: nat)
    requires Gated(s, max) && Enabled(s, max, Grant(id))
    ensures Gated(Apply(s, Grant(id)), max)
  {
    var n := Apply(s, Grant(id));
    forall a ensures Active(n, a) == Active(s, a) && Admitted(n, max, a) == Admitted(s, max, a) {}
  }

  /** Counting off is exact: the floor at zero is never what stops the counter. */
  lemma EndGated(s: State, max: int, m: Move)
    requires Gated(s, max) && Enabled(s, max, m) && !m.Count? && !m.Grant?
    ensures Gated(Apply(s, m), max)
    ensures var a := s.attempts[m.id].account;
      && Value(s.counter, a) >= 1 && Value(Apply(s, m).counter, a) == Value(s.counter, a) - 1
  {
    var n, account := Apply(s, m), s.attempts[m.id].account;
    assert m.id in Active(s, account);
    forall a ensures Value(n.counter, a) == |Active(n, a)| && |Admitted(n, max, a)| <= max {
      var gone := if a == account then {m.id} else {};
      assert Active(n, a) == Active(s, a) - gone;
      SmallerSet(Admitted(n, max, a), Admitted(s, max, a));
    }
  }

  /** A decrement with no attempt behind it makes the counter say less than there is, unless it finds nothing. */
  lemma StrayDecrement(s: State, max: int, account: string)
    requires Gated(s, max)
    ensures Gated(s.(counter := Decreased(s.counter, account)), max) <==> Value(s.counter, account) == 0
  {
    var n := s.(counter := Decreased(s.counter, account));
    assert forall a :: Active(n, a) == Active(s, a) && Admitted(n, max, a) == Admitted(s, max, a);
    assert Value(s.counter, account) == |Active(s, account)|;
    if Value(s.counter, account) > 0 { assert Value(n.counter, account) != |Active(n, account)|; }
  }

  predicate Legal(s: State, max: int, ms: seq<Move>)
    decreases |ms|
  {
    ms == [] || (Enabled(s, max, ms[0]) && Legal(Apply(s, ms[0]), max, ms[1..]))
  }

  function Run(s: State, ms: seq<Move>): State
    decreases |ms|
  {
    if ms == [] then s else Run(Apply(s, ms[0]), ms[1..])
  }

  lemma {:induction false} RunGated(s: State, max: int, ms: seq<Move>)
    requires Gated(s, max) && Legal(s, max, ms)
    ensures Gated(Run(s, ms), max)
    decreases |ms|
  {
    hide Gated;
    if ms != [] {
      match ms[0] {
        case Count(id, account) => CountGated(s, max, id, account);
        case Grant(id) => GrantGated(s, max, id);
        case _ => EndGated(s, max, ms[0]);
      }
      RunGated(Apply(s, ms[0]), max, ms[1..]);
    }
  }

  lemma LeasesAdmitted(s: State, max: int, account: string)
    requires Gated(s, max)
    ensures |Leases(s, account)| <= max
  {
    SmallerSet(Leases(s, account), Admitted(s, max, account));
  }

  /** However the workers' steps interleave: at most `max` leases on an account, and a counter that says exactly how
      many attempts have counted themselves and not yet counted themselves off. */
  lemma AtMostMaxLeases(max: nat, ms: seq<Move>, account: string)
    requires Legal(State(map[], map[]), max, ms)
    ensures var s := Run(State(map[], map[]), ms);
      |Leases(s, account)| <= max && Value(s.counter, account) == |Active(s, account)|
  {
    RunGated(State(map[], map[]), max, ms);
    LeasesAdmitted(Run(State(map[], map[]), ms), max, account);
  }

  /** A refusal is never idle talk: at the increment, `max` other attempts were counted on the account. */
  lemma RefusalMeansBusy(s: State, max: int, id: nat, account: string)
    requires Gated(s, max) && id !in s.attempts
    ensures Enabled(Apply(s, Count(id, account)), max, Refuse(id)) <==> |Active(s, account)| >= max
  {
  }

  /** But those attempts need not hold a lease: one that gives up later can keep another out. */
  lemma RefusedWithoutLeases(account: string) returns (ms: seq<Move>)
    ensures Legal(State(map[], map[]), 1, ms)
    ensures Leases(Run(State(map[], map[]), ms), account) == {}
    ensures exists id :: Enabled(Run(State(map[], map[]), ms), 1, Refuse(id))
  {
    var s0 := State(map[], map[]);
    ms := [Count(0, account), Count(1, account)];
    var s1 := Apply(s0, ms[0]);
    var s2 := Apply(s1, ms[1]);
    assert ms[1..] == [ms[1]] && ms[1..][1..] == [];
    assert Run(s0, ms) == Run(s1, ms[1..]) == Run(s2, []) == s2;
    assert Legal(s2, 1, []) && Legal(s1, 1, ms[1..]);
    assert Enabled(s2, 1, Refuse(1));
  }
}
