/** A worker process: its shards, and leases through the cluster-wide gate. Other workers run in between. */
module Worker {
  import opened Text
  import opened Catalog
  import H = HotIndex
  import Sel = Selection
  import Sticky = StickyLru
  import L = Lease
  import Shards = ShardLeases
  import Gate = InflightGate
  import C = ClusterState

  function Max(a: int, b: int): int { if a > b then a else b }

  function EstimateWorkers(hotSize: int): int {
    if hotSize <= 0 then 6 else Max(1, 30000 / hotSize)
  }

  function TargetShards(shardCount: int, hotSize: int): int
    requires shardCount >= 0
  {
    Max(1, shardCount / Max(1, EstimateWorkers(hotSize)))
  }

  /** `others(n)` is what other workers do at the n-th gap between this worker's calls. */
  ghost predicate Foreign(id: string, others: nat -> seq<C.Event>) {
    forall n: nat, i | 0 <= i < |others(n)| && others(n)[i].Call? :: others(n)[i].call.worker != id
  }

  /** The worker's list of shards and the shared leases, at one moment. */
  datatype Moment = Moment(list: set<int>, leases: Shards.State)

  /** Every shard on the list is held, then and there. */
  ghost predicate AllHeld(id: string, m: Moment) {
    forall k | k in m.list :: Shards.Holds(m.leases, id, k, m.leases.clock)
  }

  /** Every shard on the list was last acknowledged beyond `until`. */
  ghost predicate Good(id: string, m: Moment, until: int) {
    forall k | k in m.list :: (id, k) in m.leases.acks && m.leases.acks[(id, k)] >= until
  }

  lemma GoodIsHeld(id: string, m: Moment, until: int)
    requires Good(id, m, until) && m.leases.clock < until
    ensures AllHeld(id, m)
  {
  }

  ghost predicate HeldAlong(id: string, trace: seq<Moment>) {
    forall i | 0 <= i < |trace| :: AllHeld(id, trace[i])
  }

  ghost predicate Listed(trace: seq<Moment>, list: set<int>) {
    forall i | 0 <= i < |trace| :: trace[i].list == list
  }

  /** The moments of a stretch of time in which the list stays the same. */
  ghost function Moments(list: set<int>, ss: seq<Shards.State>): (ms: seq<Moment>)
    ensures |ms| == |ss| && forall i | 0 <= i < |ss| :: ms[i] == Moment(list, ss[i])
  {
    seq(|ss|, i requires 0 <= i < |ss| => Moment(list, ss[i]))
  }

  /** From one state of the leases to another, one step at a time, with nothing left out. */
  ghost predicate Spans(trace: seq<Moment>, from: Shards.State, to: Shards.State) {
    && trace != [] && trace[0].leases == from && trace[|trace| - 1].leases == to
    && forall i | 0 <= i < |trace| - 1 :: Shards.OneStep(trace[i].leases, trace[i + 1].leases)
  }

  lemma SpansHere(m: Moment)
    ensures Spans([m], m.leases, m.leases)
  {
  }

  lemma SpansOf(list: set<int>, ss: seq<Shards.State>)
    requires ss != [] && Shards.Unbroken(ss)
    ensures Spans(Moments(list, ss), ss[0], ss[|ss| - 1])
  {
    hide Shards.OneStep;
  }

  lemma SpansJoin(a: seq<Moment>, b: seq<Moment>, from: Shards.State, s: Shards.State, t: Shards.State, to: Shards.State)
    requires Spans(a, from, s) && Shards.OneStep(s, t) && Spans(b, t, to)
    ensures Spans(a + b, from, to)
  {
    hide Shards.OneStep;
    var c := a + b;
    forall i | 0 <= i < |c| - 1 ensures Shards.OneStep(c[i].leases, c[i + 1].leases) {
      if i < |a| - 1 {
        assert c[i] == a[i] && c[i + 1] == a[i + 1];
      } else if i > |a| - 1 {
        assert c[i] == b[i - |a|] && c[i + 1] == b[i + 1 - |a|];
      }
    }
  }

  lemma SpansEnds(trace: seq<Moment>, from: Shards.State, to: Shards.State)
    requires Spans(trace, from, to)
    ensures trace != [] && trace[0].leases == from && trace[|trace| - 1].leases == to
  {
  }

  lemma NothingListed(id: string, m: Moment, until: int)
    requires m.list == {}
    ensures Good(id, m, until)
  {
  }

  lemma StandsStill(s: Shards.State)
    ensures Shards.OneStep(s, s)
  {
  }

  lemma OwnStep(s: Shards.State, call: Shards.Call, t: Shards.State)
    requires t == s || t == Shards.Step(s, Shards.Timed(s.clock, call))
    ensures Shards.OneStep(s, t)
  {
    hide Shards.Step;
  }

  /** What others do in between: whatever was held at the end of it was held all along. */
  lemma HeldMeanwhile(id: string, list: set<int>, passed: seq<Shards.State>)
    requires passed != [] && AllHeld(id, Moment(list, passed[|passed| - 1]))
    requires forall i | 0 <= i < |passed| :: Shards.Kept(id, passed[i], passed[|passed| - 1])
    ensures HeldAlong(id, Moments(list, passed))
  {
    var last := passed[|passed| - 1];
    forall i | 0 <= i < |passed| ensures AllHeld(id, Moment(list, passed[i])) {
      KeptHeld(id, list, passed[i], last);
    }
    hide Shards.Kept, AllHeld;
  }

  lemma KeptHeld(id: string, list: set<int>, s: Shards.State, last: Shards.State)
    requires AllHeld(id, Moment(list, last)) && Shards.Kept(id, s, last)
    ensures AllHeld(id, Moment(list, s))
  {
    forall k | k in list ensures Shards.Holds(s, id, k, s.clock) {
      assert Shards.Holds(last, id, k, last.clock);
    }
  }

  lemma ListedMeanwhile(list: set<int>, passed: seq<Shards.State>)
    ensures Listed(Moments(list, passed), list)
  {
  }

  lemma GoodKept(id: string, list: set<int>, s: Shards.State, t: Shards.State, until: int)
    requires Good(id, Moment(list, s), until) && Shards.Kept(id, s, t)
    ensures Good(id, Moment(list, t), until)
  {
  }

  /** Each round ends less than `ttl` after the round before it started; round 0 is the claim. */
  ghost predicate InTime(starts: seq<int>, ends: seq<int>, ttl: int)
    requires |starts| == |ends|
  {
    forall i | 0 <= i < |ends| :: ends[i] < starts[if i == 0 then 0 else i - 1] + ttl
  }

  lemma MoreMoments(id: string, a: seq<Moment>, b: seq<Moment>, list: set<int>)
    ensures HeldAlong(id, a) && HeldAlong(id, b) ==> HeldAlong(id, a + b)
    ensures Listed(a, list) && Listed(b, list) ==> Listed(a + b, list)
  {
    hide AllHeld;
  }

  lemma OneMoment(id: string, m: Moment)
    ensures HeldAlong(id, [m]) <==> AllHeld(id, m)
    ensures Listed([m], m.list)
  {
    assert [m][0] == m;
  }

  lemma FirstRound(start: int, end: int, ttl: int)
    ensures InTime([start], [end], ttl) <==> end < start + ttl
  {
    assert [end][0] == end;
  }

  lemma InTimeSoFar(starts: seq<int>, ends: seq<int>, start: int, end: int, ttl: int)
    requires |starts| == |ends| > 0
    ensures InTime(starts + [start], ends + [end], ttl) <==> InTime(starts, ends, ttl) && end < starts[|starts| - 1] + ttl
  {
    var a, b := starts + [start], ends + [end];
    if InTime(a, b, ttl) {
      forall i | 0 <= i < |ends| ensures ends[i] < starts[if i == 0 then 0 else i - 1] + ttl { assert b[i] == ends[i]; }
      assert b[|ends|] == end;
    }
  }

  lemma AllGood(id: string, m: Moment, until: int)
    requires forall k | k in m.list :: (id, k) in m.leases.acks && m.leases.acks[(id, k)] >= until
    ensures Good(id, m, until)
  {
  }

  /** A claim keeps what was good, and what it takes is good for the time it is taken for. */
  lemma ClaimKeepsGood(id: string, m: Moment, k: int, ttl: int, until: int)
    requires Good(id, m, until) && until <= m.leases.clock + ttl
    ensures var r := Shards.Step(m.leases, Shards.Timed(m.leases.clock, Shards.Acquire(id, k, ttl)));
      && Good(id, Moment(m.list, r), until)
      && (Shards.Grantable(m.leases.table, m.leases.clock, k, id) ==> Good(id, Moment(m.list + {k}, r), until))
  {
  }

  lemma HeldIsOwned(id: string, m: Moment, k: int)
    requires Shards.Exclusive(m.leases) && AllHeld(id, m) && k in m.list
    ensures Shards.Owned(m.leases.table, k, id)
  {
    assert Shards.Holds(m.leases, id, k, m.leases.clock);
  }

  /** A renewal keeps what was good, whether or not it succeeds. */
  lemma RenewalKeepsGood(id: string, m: Moment, k: int, ttl: int, until: int)
    requires Good(id, m, until) && until <= m.leases.clock + ttl
    ensures var r := Shards.Step(m.leases, Shards.Timed(m.leases.clock, Shards.Renew(id, k, ttl)));
      Good(id, Moment(m.list, r), until) && Good(id, Moment(m.list - {k}, r), until) && Good(id, Moment(m.list - {k}, m.leases), until)
  {
  }

  class Service {
    const id: string
    const state: C.Memory
    const shardCount: nat
    const hotSize: int
    const ttl: int
    var shards: map<int, Shards.Lease>

    /** Every shard on the list was granted or renewed and not given back. */
    ghost predicate Valid()
      reads this, state
    {
      state.Valid() && forall k | k in shards :: (id, k) in state.acks
    }

    ghost function Now(): Moment
      reads this`shards, state`shards, state`acks, state`clock
    {
      Moment(shards.Keys, state.Leasing())
    }

    constructor (name: string, cluster: C.Memory, count: nat, size: int, seconds: int)
      requires cluster.Valid()
      ensures Valid() && id == name && state == cluster && shards == map[]
      ensures shardCount == count && hotSize == size && ttl == seconds
    {
      id, state, shardCount, hotSize, ttl, shards := name, cluster, count, size, seconds, map[];
    }

    /** Take free shards in index order up to the target. `seen` is the shared table as each try found it, `trace` every
        moment of the claim. */
    method ClaimShards(others: nat -> seq<C.Event>, ghost until: int)
      returns (claimed: nat, ghost seen: seq<Shards.State>, ghost trace: seq<Moment>)
      requires Valid() && Foreign(id, others)
      modifies this`shards, state
      ensures Valid() && claimed <= TargetShards(shardCount, hotSize)
      ensures claimed == Grants(seen, id) && |seen| <= shardCount
      ensures forall k :: k in shards <==> k in old(shards) || (0 <= k < |seen| && Shards.Grantable(seen[k].table, seen[k].clock, k, id))
      ensures !state.closed ==> claimed == TargetShards(shardCount, hotSize) || |seen| == shardCount
      ensures state.clock >= old(state.clock) && (old(state.closed) ==> state.closed)
      ensures forall k | k in shards && !(k in old(shards) && state.acks[(id, k)] == old(state.acks)[(id, k)]) ::
        state.acks[(id, k)] >= old(state.clock) + ttl
      ensures Spans(trace, old(state.Leasing()), state.Leasing())
      ensures old(Good(id, Now(), until)) && until <= old(state.clock) + ttl && state.clock < until ==> HeldAlong(id, trace)
    {
      hide Shards.Exclusive, Gate.Gated, Foreign, Shards.Grantable, Spans, AllHeld, Good, HeldAlong;
      var target := TargetShards(shardCount, hotSize);
      claimed, seen := 0, [];
      trace := [Now()];
      OneMoment(id, Now());
      SpansHere(Now());
      ghost var good := Good(id, Now(), until) && until <= state.clock + ttl;
      if good && state.clock < until { GoodIsHeld(id, Now(), until); }
      var shard := 0;
      while shard < shardCount && claimed < target
        invariant Valid() && claimed <= target && 0 <= shard == |seen| <= shardCount && claimed == Grants(seen, id)
        invariant state.clock >= old(state.clock) && (old(state.closed) ==> state.closed)
        invariant forall k :: k in shards <==>
          k in old(shards) || (0 <= k < |seen| && Shards.Grantable(seen[k].table, seen[k].clock, k, id))
        invariant forall k | k in shards && !(k in old(shards) && state.acks[(id, k)] == old(state.acks)[(id, k)]) ::
          state.acks[(id, k)] >= old(state.clock) + ttl
        invariant Spans(trace, old(state.Leasing()), state.Leasing())
        invariant good ==> Good(id, Now(), until) && (state.clock < until ==> HeldAlong(id, trace))
      {
        ForeignAt(id, others, shard);
        ghost var was := state.Leasing();
        var open, ok;
        ghost var now, part;
        open, ok, now, part := ClaimOne(shard, others(shard), until);
        StandsStill(was);
        SpansJoin(trace, part, old(state.Leasing()), was, was, state.Leasing());
        MoreMoments(id, trace, part, {});
        trace := trace + part;
        if !open { return; }
        GrantsMore(seen, now, id);
        seen := seen + [now];
        if ok { claimed := claimed + 1; }
        shard := shard + 1;
      }
    }

    /** One try; `now` is the shared table as it found it. */
    method ClaimOne(shard: int, gap: seq<C.Event>, ghost until: int)
      returns (open: bool, ok: bool, ghost now: Shards.State, ghost part: seq<Moment>)
      requires Valid() && forall i | 0 <= i < |gap| && gap[i].Call? :: gap[i].call.worker != id
      modifies this`shards, state
      ensures Valid() && state.clock >= old(state.clock) && (old(state.closed) ==> state.closed)
      ensures (open <==> !state.closed) && (ok <==> open && Shards.Grantable(now.table, now.clock, shard, id))
      ensures shards.Keys == old(shards).Keys + if ok then {shard} else {}
      ensures forall k | k in old(shards) && !(ok && k == shard) :: state.acks[(id, k)] == old(state.acks)[(id, k)]
      ensures ok ==> state.acks[(id, shard)] >= old(state.clock) + ttl
      ensures Spans(part, old(state.Leasing()), state.Leasing())
      ensures old(Good(id, Now(), until)) && until <= old(state.clock) + ttl ==>
        Good(id, Now(), until) && (state.clock < until ==> HeldAlong(id, part))
    {
      hide Shards.Exclusive, Gate.Gated, Shards.Grantable, Spans, AllHeld, Good, HeldAlong, Shards.Unbroken, Shards.OneStep;
      ghost var was := Now();
      ghost var passed := state.Others(gap, id, {});
      now := state.Leasing();
      ghost var m := Now();
      ghost var good := Good(id, was, until) && until <= was.leases.clock + ttl;
      if good {
        GoodKept(id, was.list, was.leases, now, until);
        ClaimKeepsGood(id, m, shard, ttl, until);
      }
      if good && state.clock < until {
        GoodIsHeld(id, m, until);
        HeldMeanwhile(id, m.list, passed);
      }
      var lease;
      lease, ok := state.TryAcquireShard(shard, id, ttl);
      open := lease.Some?;
      if ok { shards := shards[shard := lease.value]; }
      assert Now().list == if ok then m.list + {shard} else m.list;
      part := Moments(m.list, passed) + [Now()];
      SpansOf(m.list, passed);
      SpansHere(Now());
      OwnStep(now, Shards.Acquire(id, shard, ttl), state.Leasing());
      SpansJoin(Moments(m.list, passed), [Now()], was.leases, now, state.Leasing(), state.Leasing());
      OneMoment(id, Now());
      MoreMoments(id, Moments(m.list, passed), [Now()], {});
      if good && state.clock < until { GoodIsHeld(id, Now(), until); }
    }

    /** Renew every shard on the list; one whose lease another worker has taken over goes off the list. If all of it
        was good until `until` and the round ends before then, every shard was held throughout and none is lost.
        `trace` is every moment of the round. */
    method RenewShards(others: nat -> seq<C.Event>, ghost until: int) returns (ghost trace: seq<Moment>)
      requires Valid() && Foreign(id, others)
      modifies this`shards, state
      ensures Valid() && shards.Keys <= old(shards).Keys
      ensures state.clock >= old(state.clock) && (old(state.closed) ==> state.closed)
      ensures Good(id, Now(), old(state.clock) + ttl)
      ensures !state.closed ==> forall k | k in old(shards) && k !in shards :: !Shards.Holds(state.Leasing(), id, k, state.clock)
      ensures Spans(trace, old(state.Leasing()), state.Leasing())
      ensures old(Good(id, Now(), until)) && until <= old(state.clock) + ttl && state.clock < until ==>
        HeldAlong(id, trace) && (!state.closed ==> shards.Keys == old(shards).Keys && Listed(trace, old(shards).Keys))
    {
      hide Gate.Gated, Shards.Exclusive, Foreign, AllHeld, Good, Spans, HeldAlong, Listed;
      var rest := shards.Keys;
      var n := 0;
      ghost var good := Good(id, Now(), until) && until <= state.clock + ttl;
      trace := [Now()];
      OneMoment(id, Now());
      SpansHere(Now());
      if good && state.clock < until { GoodIsHeld(id, Now(), until); }
      while rest != {}
        invariant Valid() && state.clock >= old(state.clock) && (old(state.closed) ==> state.closed)
        invariant rest <= shards.Keys <= old(shards).Keys
        invariant forall k | k in shards && k !in rest :: state.acks[(id, k)] >= old(state.clock) + ttl
        invariant !state.closed ==>
          forall k | k in old(shards) && k !in shards :: !Shards.Holds(state.Leasing(), id, k, state.clock)
        invariant Spans(trace, old(state.Leasing()), state.Leasing())
        invariant good ==> Good(id, Now(), until)
        invariant good && state.clock < until ==> HeldAlong(id, trace)
        invariant good && state.clock < until && !state.closed ==> shards.Keys == old(shards).Keys && Listed(trace, shards.Keys)
        decreases rest
      {
        var k := AnyOf(rest);
        ForeignAt(id, others, n);
        ghost var was := state.Leasing();
        ghost var part := RenewOne(k, others(n), until);
        StandsStill(was);
        SpansJoin(trace, part, old(state.Leasing()), was, was, state.Leasing());
        MoreMoments(id, trace, part, old(shards).Keys);
        trace := trace + part;
        rest := rest - {k};
        n := n + 1;
      }
      AllGood(id, Now(), old(state.clock) + ttl);
    }

    /** One renewal, with every moment of it. */
    method RenewOne(k: int, gap: seq<C.Event>, ghost until: int) returns (ghost part: seq<Moment>)
      requires Valid() && k in shards && forall i | 0 <= i < |gap| && gap[i].Call? :: gap[i].call.worker != id
      modifies this`shards, state
      ensures Valid() && (shards == old(shards) || shards == old(shards) - {k})
      ensures state.clock >= old(state.clock) && (old(state.closed) ==> state.closed)
      ensures k in shards ==> state.acks[(id, k)] >= old(state.clock) + ttl
      ensures forall j | j != k && (id, j) in old(state.acks) ::
        (id, j) in state.acks && state.acks[(id, j)] == old(state.acks)[(id, j)]
      ensures forall j | (id, j) in state.acks :: (id, j) in old(state.acks)
      ensures !state.closed && k !in shards ==> !Shards.Holds(state.Leasing(), id, k, state.clock)
      ensures Spans(part, old(state.Leasing()), state.Leasing())
      ensures old(Good(id, Now(), until)) && until <= old(state.clock) + ttl ==>
        && Good(id, Now(), until)
        && (state.clock < until ==>
              HeldAlong(id, part) && (!state.closed ==> k in shards && Listed(part, old(shards).Keys)))
    {
      hide Gate.Gated, Shards.Exclusive, AllHeld, Good, Spans, HeldAlong, Listed, Shards.Unbroken, Shards.OneStep;
      ghost var was := Now();
      ghost var passed := state.Others(gap, id, {});
      ghost var m := Now();
      ghost var good := Good(id, was, until) && until <= was.leases.clock + ttl;
      if good {
        GoodKept(id, was.list, was.leases, m.leases, until);
        RenewalKeepsGood(id, m, k, ttl, until);
      }
      if good && state.clock < until {
        GoodIsHeld(id, m, until);
        HeldIsOwned(id, m, k);
        HeldMeanwhile(id, m.list, passed);
      }
      if !Shards.Owned(state.shards, k, id) { NotOwnedNotHeld(state.Leasing(), id, k); }
      var ok := state.RenewShard(k, id, ttl);
      if !ok { shards := shards - {k}; }
      assert Now().list == if ok then m.list else m.list - {k};
      part := Moments(m.list, passed) + [Now()];
      SpansOf(m.list, passed);
      SpansHere(Now());
      OwnStep(m.leases, Shards.Renew(id, k, ttl), state.Leasing());
      SpansJoin(Moments(m.list, passed), [Now()], was.leases, m.leases, state.Leasing(), state.Leasing());
      ListedMeanwhile(m.list, passed);
      OneMoment(id, Now());
      MoreMoments(id, Moments(m.list, passed), [Now()], m.list);
      if good && state.clock < until { GoodIsHeld(id, Now(), until); }
    }

    /** A worker's life: a claim, `rounds` rounds of renewals with gaps between them, and the shards given back.
        `claiming` and `trace` are every moment of it up to there: each follows from the one before by one step of
        somebody. If every round ends less than `ttl` after the one before it started, every shard on the list is held
        at all of them, and the list is the claimed one from then on unless the shared state is closed. */
    method Run(rounds: nat, gaps: nat -> seq<C.Event>, others: nat -> (nat -> seq<C.Event>))
      returns (ghost claiming: seq<Moment>, ghost trace: seq<Moment>, ghost starts: seq<int>, ghost ends: seq<int>)
      requires Valid() && shards == map[] && Foreign(id, gaps) && forall n: nat :: Foreign(id, others(n))
      modifies this`shards, state
      ensures state.Valid() && |starts| == |ends| == rounds + 1 && trace != []
      ensures Spans(claiming, old(state.Leasing()), trace[0].leases)
      ensures Spans(trace, trace[0].leases, trace[|trace| - 1].leases)
      ensures InTime(starts, ends, ttl) ==> HeldAlong(id, claiming) && HeldAlong(id, trace)
      ensures InTime(starts, ends, ttl) && !state.closed ==> Listed(trace, trace[0].list)
      ensures !state.closed ==> forall k | k in shards :: !Shards.Holds(state.Leasing(), id, k, state.clock)
    {
      hide Gate.Gated, Shards.Exclusive, Foreign, AllHeld, Good, InTime, HeldAlong, Listed, Spans;
      starts := [state.clock];
      NothingListed(id, Now(), starts[0] + ttl);
      var claimed;
      ghost var seen;
      claimed, seen, claiming := ClaimShards(others(0), starts[0] + ttl);
      ends := [state.clock];
      AllGood(id, Now(), starts[0] + ttl);
      trace := [Now()];
      OneMoment(id, Now());
      SpansHere(Now());
      FirstRound(starts[0], ends[0], ttl);
      if InTime(starts, ends, ttl) { GoodIsHeld(id, Now(), starts[0] + ttl); }
      ghost var first := Now();
      for n := 1 to rounds + 1
        invariant Valid() && |starts| == |ends| == n && trace != [] && trace[0] == first
        invariant starts[n - 1] <= state.clock && Good(id, Now(), starts[n - 1] + ttl)
        invariant Spans(trace, first.leases, state.Leasing())
        invariant InTime(starts, ends, ttl) ==> HeldAlong(id, claiming) && HeldAlong(id, trace)
        invariant InTime(starts, ends, ttl) && !state.closed ==> shards.Keys == first.list && Listed(trace, shards.Keys)
      {
        ForeignAt(id, gaps, n);
        ghost var was := state.Leasing();
        ghost var part, start := Round(gaps(n), others(n), starts[n - 1] + ttl);
        InTimeSoFar(starts, ends, start, state.clock, ttl);
        StandsStill(was);
        SpansJoin(trace, part, first.leases, was, was, state.Leasing());
        MoreMoments(id, trace, part, first.list);
        starts, ends, trace := starts + [start], ends + [state.clock], trace + part;
      }
      SpansEnds(trace, first.leases, state.Leasing());
      ReleaseAll(others(rounds + 1));
    }

    /** A gap, and a round of renewals, with every moment of them. */
    method Round(gap: seq<C.Event>, others: nat -> seq<C.Event>, ghost until: int)
      returns (ghost part: seq<Moment>, ghost start: int)
      requires Valid() && Foreign(id, others) && forall i | 0 <= i < |gap| && gap[i].Call? :: gap[i].call.worker != id
      modifies this`shards, state
      ensures Valid() && old(state.clock) <= start <= state.clock && (old(state.closed) ==> state.closed)
      ensures Good(id, Now(), start + ttl)
      ensures Spans(part, old(state.Leasing()), state.Leasing())
      ensures old(Good(id, Now(), until)) && until <= old(state.clock) + ttl && state.clock < until ==>
        HeldAlong(id, part) && (!state.closed ==> shards.Keys == old(shards).Keys && Listed(part, shards.Keys))
    {
      hide Gate.Gated, Shards.Exclusive, Foreign, AllHeld, Good, Spans, HeldAlong, Listed, Shards.Unbroken, Shards.OneStep;
      ghost var was := Now();
      ghost var passed := state.Others(gap, id, {});
      ghost var before := Now();
      ghost var good := Good(id, was, until) && until <= was.leases.clock + ttl;
      if good { GoodKept(id, was.list, was.leases, before.leases, until); }
      start := state.clock;
      ghost var middle := RenewShards(others, until);
      if good && state.clock < until {
        GoodIsHeld(id, before, until);
        HeldMeanwhile(id, before.list, passed);
      }
      part := Moments(before.list, passed) + middle;
      SpansOf(before.list, passed);
      StandsStill(before.leases);
      SpansJoin(Moments(before.list, passed), middle, was.leases, before.leases, before.leases, state.Leasing());
      ListedMeanwhile(before.list, passed);
      MoreMoments(id, Moments(before.list, passed), middle, before.list);
    }

    /** Give back every shard on the list. */
    method ReleaseAll(others: nat -> seq<C.Event>)
      requires Valid() && Foreign(id, others)
      modifies state
      ensures state.Valid() && (old(state.closed) ==> state.closed)
      ensures !state.closed ==> forall k | k in shards :: !Shards.Holds(state.Leasing(), id, k, state.clock)
    {
      hide Shards.Exclusive, Gate.Gated, Foreign;
      var rest := shards.Keys;
      var n := 0;
      while rest != {}
        invariant state.Valid() && rest <= shards.Keys && (old(state.closed) ==> state.closed)
        invariant !state.closed ==> forall k | k in shards && k !in rest :: (id, k) !in state.acks
        decreases rest
      {
        var k := AnyOf(rest);
        ForeignAt(id, others, n);
        ghost var _ := state.Others(others(n), id, {});
        state.ReleaseShard(k, id);
        rest := rest - {k};
        n := n + 1;
      }
    }
  }

  /** A map is walked in an order of its own choosing. */
  method AnyOf<T(==)>(keys: set<T>) returns (key: T)
    requires keys != {}
    ensures key in keys
  {
    key :| key in keys;
  }

  lemma ForeignAt(id: string, others: nat -> seq<C.Event>, n: nat)
    requires Foreign(id, others)
    ensures forall i | 0 <= i < |others(n)| && others(n)[i].Call? :: others(n)[i].call.worker != id
  {
  }

  /** How many of the tries, in index order, found the shard free. */
  ghost function Grants(seen: seq<Shards.State>, id: string): nat {
    if seen == [] then 0
    else
      var k := |seen| - 1;
      Grants(seen[..k], id) + if Shards.Grantable(seen[k].table, seen[k].clock, k, id) then 1 else 0
  }

  lemma GrantsMore(seen: seq<Shards.State>, s: Shards.State, id: string)
    ensures Grants(seen + [s], id) == Grants(seen, id) + if Shards.Grantable(s.table, s.clock, |seen|, id) then 1 else 0
  {
    assert (seen + [s])[..|seen|] == seen;
  }

  lemma NotOwnedNotHeld(s: Shards.State, id: string, shard: int)
    requires Shards.Exclusive(s) && !Shards.Owned(s.table, shard, id)
    ensures !Shards.Holds(s, id, shard, s.clock)
  {
  }

  // ---- leases through the gate ----

  function CooldownForStatus(code: nat, retryAfterNs: int): Option<int> {
    if retryAfterNs > 0 then Some(retryAfterNs / 1_000_000_000)
    else if code == 401 then Some(120)
    else if code == 402 then Some(300)
    else if code == 403 then Some(900)
    else if code == 429 then Some(60)
    else if code == 0 || code >= 500 then Some(30)
    else None
  }

  /** The lease of one attempt is still running. */
  ghost predicate Running(attempts: map<nat, Gate.Attempt>, me: nat, account: string) {
    me in attempts && attempts[me] == Gate.Attempt(account, Gate.Leased)
  }

  /** The attempt has nothing left on any counter. */
  ghost predicate Settled(attempts: map<nat, Gate.Attempt>, me: nat) {
    me in attempts ==> attempts[me].phase.Finished?
  }

  /** What the shared state has on record for a session, if anything. */
  datatype Shared = Shared(primary: string, secondary: string)

  /** The local bindings after the shared one was taken over. */
  function Hydrated(es: seq<Sticky.Entry>, max: nat, now: int, ttl: int, key: string, shared: Option<Shared>): seq<Sticky.Entry>
    requires max > 0
  {
    if key == "" || shared.None? then es
    else
      var b := shared.value;
      var bound := Sticky.AfterPutPrimary(es, max, now, ttl, key, b.primary, true);
      if b.secondary != b.primary then Sticky.AfterPutSecondary(bound, now, ttl, key, b.secondary) else bound
  }

  /** A session known to the shared state is bound locally the same way. */
  lemma HydratedBinds(es: seq<Sticky.Entry>, max: nat, now: int, ttl: int, key: string, b: Shared)
    requires max > 0 && ttl > 0 && key != "" && b.primary != ""
    ensures var e := Sel.Bound(Hydrated(es, max, now, ttl, key, Some(b)), now, key);
      e.Some? && e.value.primary == b.primary && (b.secondary != "" && b.secondary != b.primary ==> e.value.secondary == b.secondary)
  {
    hide Sticky.Without, Sticky.Rebind;
    var bound := Sticky.AfterPutPrimary(es, max, now, ttl, key, b.primary, true);
    RebindsTo(if Sticky.Has(es, key) then Sticky.Find(es, key) else Sticky.Entry(key, b.primary, "", 0), b.primary);
    HeadIsFound(bound, key);
    HeadIsFound(Hydrated(es, max, now, ttl, key, Some(b)), key);
  }

  lemma BlankPuts(es: seq<Sticky.Entry>, max: nat, now: int, ttl: int, key: string)
    requires max > 0
    ensures Sticky.AfterPutPrimary(es, max, now, ttl, key, "", true) == es
  {
    hide Sticky.Touch, Sticky.Has;
  }

  lemma BlankSecond(es: seq<Sticky.Entry>, now: int, ttl: int, key: string)
    ensures Sticky.AfterPutSecondary(es, now, ttl, key, "") == es
  {
    hide Sticky.Touch, Sticky.Has;
  }

  predicate BoundFirst(bound: Option<Sticky.Entry>, allowed: set<string>, id: string) {
    bound.Some? ==>
      && (bound.value.primary in allowed ==> id == bound.value.primary)
      && (bound.value.primary !in allowed && bound.value.secondary in allowed ==> id == bound.value.secondary)
  }

  /** The account of a session, as the shared state knows it: picked if it may serve, and else the second one. */
  predicate SharedFirst(key: string, shared: Option<Shared>, allowed: set<string>, id: string) {
    key != "" && shared.Some? && shared.value.primary != "" ==>
      && (shared.value.primary in allowed ==> id == shared.value.primary)
      && (shared.value.primary !in allowed && shared.value.secondary in allowed && shared.value.secondary != "" ==>
            id == shared.value.secondary)
  }

  lemma SharedIsFirst(
    es: seq<Sticky.Entry>, max: nat, now: int, ttl: int, key: string, shared: Option<Shared>, allowed: set<string>, id: string)
    requires max > 0 && ttl > 0
    requires BoundFirst(Sel.Bound(Hydrated(es, max, now, ttl, key, shared), now, key), allowed, id)
    ensures SharedFirst(key, shared, allowed, id)
  {
    hide Hydrated, Sel.Bound;
    if key != "" && shared.Some? && shared.value.primary != "" { HydratedBinds(es, max, now, ttl, key, shared.value); }
  }

  lemma RebindsTo(e: Sticky.Entry, account: string)
    ensures Sticky.Rebind(e, account, true).primary == account && Sticky.Rebind(e, account, true).key == e.key
  {
  }

  lemma HeadIsFound(es: seq<Sticky.Entry>, key: string)
    ensures es != [] && es[0].key == key ==> Sticky.Has(es, key) && Sticky.Find(es, key) == es[0]
  {
    if es != [] && es[0].key == key { assert es[0].key == key; }
  }

  datatype Failure = NoAccount | CoolingDown | Refused | CatalogMiss | NotUsable | Cancelled

  datatype Outcome = Leased(lease: L.Lease) | Failed(why: Failure) {
    predicate NoneFound() { Failed? && why.NoAccount? }
  }

  class StoreLeaser {
    const name: string
    const idx: H.Index
    const sel: Sel.Selector
    const state: C.Memory
    const maxInflight: int
    const maxAttempts: int
    var accounts: Table

    /** Everything but the shared leases and counters. */
    ghost predicate Ready()
      reads this, idx, sel, sel.sticky
    {
      sel.idx == idx && idx.Valid() && sel.Valid() && maxInflight == state.max && maxAttempts > 0
    }

    ghost predicate Valid()
      reads this, idx, sel, sel.sticky, state
    {
      Ready() && state.Valid()
    }

    constructor (
      worker: string, index: H.Index, selector: Sel.Selector, cluster: C.Memory, rows: Table, inflight: int, attempts: int)
      requires index.Valid() && selector.Valid() && selector.idx == index && cluster.Valid()
      requires cluster.max == if inflight <= 0 then 2 else inflight
      ensures Valid() && idx == index && sel == selector && state == cluster && accounts == rows
      ensures maxAttempts == if attempts <= 0 then 4 else attempts
    {
      name, idx, sel, state, accounts := worker, index, selector, cluster, rows;
      maxInflight := if inflight <= 0 then 2 else inflight;
      maxAttempts := if attempts <= 0 then 4 else attempts;
    }

    /** Count the attempt, then check what the counter answered; other workers act before, between and after. */
    method PassGate(account: string, ghost me: nat, before: seq<C.Event>, between: seq<C.Event>)
      returns (passed: bool, n: int)
      requires Valid() && me !in state.attempts
      requires forall i | 0 <= i < |before| && before[i].Call? :: before[i].call.worker != name
      requires forall i | 0 <= i < |between| && between[i].Call? :: between[i].call.worker != name
      modifies state
      ensures Valid()
      ensures if passed then
          me in state.attempts && state.attempts[me].account == account && Gate.Enabled(state.Counting(), maxInflight, Gate.Grant(me))
        else state.closed || Settled(state.attempts, me)
      ensures passed ==> state.attempts[me].phase == Gate.Counted(n)
      ensures !passed && !state.closed ==> n > maxInflight && me in state.attempts
    {
      hide Shards.Exclusive, Gate.Gated, H.Coherent, Sel.Selector.Valid;
      ghost var _ := state.Others(before, name, {me});
      var ok;
      n, ok := state.IncrInflight(account, me);
      if !ok { return false, n; }
      ghost var _ := state.Others(between, name, {me});
      if n > maxInflight {
        var _ := state.DecrInflight(account, Gate.Refuse(me));
        return false, n;
      }
      return true, n;
    }

    /** Count an attempt off again, or fail to because the shared state is gone. */
    method CountOff(account: string, ghost me: nat, ghost end: Gate.Move)
      requires Valid() && Gate.Enabled(state.Counting(), maxInflight, end) && (end.GiveUp? || end.Return?) && end.id == me
      requires state.attempts[me].account == account
      modifies state`inflight, state`attempts
      ensures Valid() && (state.closed || Settled(state.attempts, me))
    {
      hide Shards.Exclusive, Gate.Gated, H.Coherent, Sel.Selector.Valid;
      var _ := state.DecrInflight(account, end);
    }

    /** Take over what the shared state has on record for the session. */
    method Hydrate(stickyKey: string, shared: Option<Shared>, now: int)
      requires Valid()
      modifies sel.sticky
      ensures Valid()
      ensures sel.sticky.View()
           == Hydrated(old(sel.sticky.View()), sel.sticky.max, now, sel.sticky.ttl, stickyKey, shared)
    {
      hide C.Memory.Valid, H.Coherent, Sticky.Filed, Sticky.Reverses, Sticky.Apart, Sticky.AfterPutPrimary, Sticky.AfterPutSecondary;
      BlankPuts(sel.sticky.View(), sel.sticky.max, now, sel.sticky.ttl, stickyKey);
      if stickyKey == "" || shared.None? { return; }
      var b := shared.value;
      if b.primary != "" { sel.sticky.PutPrimary(now, stickyKey, b.primary, true); }
      BlankSecond(sel.sticky.View(), now, sel.sticky.ttl, stickyKey);
      if b.secondary != "" && b.secondary != b.primary { sel.sticky.PutSecondary(now, stickyKey, b.secondary); }
    }

    /** Pick an account outside `tried`: the one bound to the session if it may serve, else the one bound second. */
    method Pick(stickyKey: string, tried: set<string>, now: int, draws: L.Draws) returns (id: string, ok: bool)
      requires Valid() && now > 0
      modifies sel`rrCursor, sel.sticky
      ensures Valid()
      ensures if ok then id in sel.Allowed(now, tried) && id !in tried && id != "" else id == "" && NoneLeft(now, tried)
      ensures BoundFirst(Sel.Bound(old(sel.sticky.View()), now, stickyKey), sel.Allowed(now, tried), id)
    {
      hide Shards.Exclusive, Gate.Gated, H.Indexed, Sel.Reachable, Sel.Bound, Sel.Rebound, Sel.Turn, Sel.Tier;
      L.ReachableAllowed(sel.cfg.strategy, idx.hot, sel.Allowed(now, tried));
      id, ok := sel.PickExcluding(now, stickyKey, tried, now, draws.intn, draws.jitter);
    }

    /** The strategy has nothing to choose from outside `tried`. */
    ghost predicate NoneLeft(at: int, tried: set<string>)
      reads idx`hot, idx`maxInflight
    {
      Sel.Reachable(sel.cfg.strategy, idx.hot, H.Candidates(idx.hot, at, idx.maxInflight, tried)) == {}
    }

    method PickShared(stickyKey: string, shared: Option<Shared>, tried: set<string>, now: int, draws: L.Draws)
      returns (id: string, ok: bool)
      requires Valid() && now > 0
      modifies sel`rrCursor, sel.sticky
      ensures Valid()
      ensures if ok then id in sel.Allowed(now, tried) && id !in tried && id != "" else id == "" && NoneLeft(now, tried)
      ensures SharedFirst(stickyKey, shared, sel.Allowed(now, tried), id)
    {
      hide C.Memory.Valid, H.Coherent, H.Candidates, NoneLeft, Hydrated, Sel.Bound, BoundFirst, SharedFirst, Sticky.Filed,
        Sticky.Reverses, Sticky.Apart;
      ghost var es := sel.sticky.View();
      Hydrate(stickyKey, shared, now);
      id, ok := Pick(stickyKey, tried, now, draws);
      SharedIsFirst(es, sel.sticky.max, now, sel.sticky.ttl, stickyKey, shared, sel.Allowed(now, tried), id);
    }

    /** One attempt. A lease leaves it counted once; anything else leaves it counted nowhere. */
    method AcquireAttempt(
      stickyKey: string, model: string, tried: set<string>, shared: Option<Shared>, now: int, draws: L.Draws,
      others: nat -> seq<C.Event>, ghost me: nat)
      returns (r: Outcome, id: string)
      requires Valid() && now > 0 && me !in state.attempts && Foreign(name, others)
      modifies idx`hot, sel`rrCursor, sel.sticky, state
      ensures Valid()
      ensures r.NoneFound() ==> id == "" && idx.hot == old(idx.hot) && NoneLeft(now, tried)
      ensures !r.NoneFound() ==> id in old(sel.Allowed(now, tried)) && id !in tried
      ensures SharedFirst(stickyKey, shared, old(sel.Allowed(now, tried)), id)
      ensures r.Leased? ==> id in accounts && UsableLease(r.lease, accounts[id], stickyKey, model, |tried| + 1, now)
      ensures if r.Leased? then Running(state.attempts, me, id) else state.closed || Settled(state.attempts, me)
      ensures r.Failed? && !r.NoneFound() ==>
        Reason(r.why, accounts, old(state.cooldown), old(state.clock), state.closed, me in state.attempts, id, now)
    {
      hide Valid, NoneLeft, Running, Settled, L.AccountUsable, H.EligibleWithInflightCap, Foreign, SharedFirst;
      Unstarted(state.attempts, me);
      var ok;
      id, ok := PickShared(stickyKey, shared, tried, now, draws);
      if !ok || id == "" { return Failed(NoAccount), ""; }
      var until := state.GetCooldown(id);
      if until.Some? { return Failed(CoolingDown), id; }
      ForeignAt(name, others, 0);
      ForeignAt(name, others, 1);
      var passed, n := PassGate(id, me, others(0), others(1));
      if !passed { return Failed(Refused), id; }
      if id !in accounts {
        CountOff(id, me, Gate.GiveUp(me));
        return Failed(CatalogMiss), id;
      }
      var acc := accounts[id];
      if !L.AccountUsable(acc, now) {
        CountOff(id, me, Gate.GiveUp(me));
        return Failed(NotUsable), id;
      }
      Start(id, me);
      return Leased(L.Lease(acc.id, acc.revision % Sel.Word, acc.accessToken, acc.proxyUrl, acc.proxyMode, stickyKey, model, |tried| + 1)), id;
    }

    /** The attempt becomes a lease; the local count follows if the account is hot. */
    method Start(id: string, ghost me: nat)
      requires Valid() && Gate.Enabled(state.Counting(), maxInflight, Gate.Grant(me)) && state.attempts[me].account == id
      modifies idx`hot, state`attempts
      ensures Valid() && Running(state.attempts, me, id)
    {
      hide Shards.Exclusive, Gate.Gated, H.Coherent, Sticky.Filed, Sticky.Reverses, Sticky.Apart;
      state.Grant(me);
      var _ := idx.AddInflight(id);
    }

    /** Attempts until a lease, until no account is left to try, or until the budget is spent. */
    method Acquire(
      stickyKey: string, model: string, shared: nat -> Option<Shared>, clock: L.Clock, cancelFrom: nat,
      draws: nat -> L.Draws, others: nat -> (nat -> seq<C.Event>))
      returns (r: Outcome, ghost tried: seq<string>, ghost me: nat)
      requires Valid() && forall n: nat :: Foreign(name, others(n))
      modifies idx`hot, sel`rrCursor, sel.sticky, state
      ensures Valid() && |tried| <= maxAttempts && L.Distinct(tried)
      ensures Ends(r, tried, stickyKey, model, clock, cancelFrom, me)
      ensures tried != [] ==> SharedFirst(stickyKey, shared(1), old(sel.Allowed(L.At(clock, 1), {})), tried[0])
    {
      BudgetIsSpendable();
      hide Valid, Acquired, Ends, L.Distinct, L.Elements, NothingAt, Foreign, SharedFirst, H.Candidates;
      tried, me := [], 0;
      var seen: set<string> := {};
      var last := NoAccount;
      L.NoElements();
      var attempt := 1;
      while attempt <= maxAttempts
        invariant 1 <= attempt <= maxAttempts + 1
        invariant Valid() && |tried| == attempt - 1 == |seen| && L.Distinct(tried) && seen == L.Elements(tried)
        invariant attempt > 1 ==> !last.NoAccount?
        invariant attempt == 1 ==> idx.hot == old(idx.hot)
        invariant tried != [] ==> SharedFirst(stickyKey, shared(1), old(sel.Allowed(L.At(clock, 1), {})), tried[0])
      {
        if attempt >= cancelFrom {
          GivesUp(Cancelled, tried, stickyKey, model, clock, cancelFrom, me);
          return Failed(Cancelled), tried, me;
        }
        var id;
        r, id, tried, me :=
          TryNext(tried, stickyKey, model, seen, shared(attempt), attempt, clock, draws(attempt), others(attempt));
        if r.NoneFound() || r.Leased? {
          EndsHere(r, tried, stickyKey, model, clock, cancelFrom, me);
          return;
        }
        seen := seen + {id};
        last := r.why;
        attempt := attempt + 1;
      }
      GivesUp(last, tried, stickyKey, model, clock, cancelFrom, me);
      r := Failed(last);
    }

    /** How a call ends: with a lease; with nothing left to try; or with the budget spent or the caller gone. */
    ghost predicate Ends(
      r: Outcome, tried: seq<string>, stickyKey: string, model: string, clock: L.Clock, cancelFrom: nat, me: nat)
      reads this`accounts, state`attempts, idx`hot, idx`maxInflight
    {
      if r.Leased? then Acquired(r.lease, tried, stickyKey, model, clock, me)
      else if r.NoneFound() then NothingAt(clock, tried)
      else |tried| == maxAttempts || (r.why.Cancelled? && |tried| + 1 >= cancelFrom)
    }

    /** At the time of the next attempt there is nothing left but what was tried. */
    ghost predicate NothingAt(clock: L.Clock, tried: seq<string>)
      reads idx`hot, idx`maxInflight
    {
      NoneLeft(L.At(clock, |tried| + 1), L.Elements(tried))
    }

    lemma EndsHere(
      r: Outcome, tried: seq<string>, stickyKey: string, model: string, clock: L.Clock, cancelFrom: nat, me: nat)
      requires if r.Leased? then Acquired(r.lease, tried, stickyKey, model, clock, me) else r.NoneFound() && NothingAt(clock, tried)
      ensures Ends(r, tried, stickyKey, model, clock, cancelFrom, me)
    {
    }

    lemma GivesUp(
      e: Failure, tried: seq<string>, stickyKey: string, model: string, clock: L.Clock, cancelFrom: nat, me: nat)
      requires |tried| == maxAttempts || (e == Cancelled && |tried| + 1 >= cancelFrom)
      requires !e.NoAccount?
      ensures Ends(Failed(e), tried, stickyKey, model, clock, cancelFrom, me)
    {
    }

    /** What a lease means: it is the last account tried, usable then, and counted once on the shared counter. */
    ghost predicate Acquired(
      l: L.Lease, tried: seq<string>, stickyKey: string, model: string, clock: L.Clock, me: nat)
      reads this`accounts, state`attempts
    {
      && tried != [] && tried[|tried| - 1] == l.accountId && l.accountId in accounts
      && UsableLease(l, accounts[l.accountId], stickyKey, model, |tried|, L.At(clock, |tried|))
      && Running(state.attempts, me, l.accountId)
    }

    method TryNext(
      ghost tried: seq<string>, stickyKey: string, model: string, seen: set<string>, shared: Option<Shared>, attempt: nat,
      clock: L.Clock, draws: L.Draws, others: nat -> seq<C.Event>)
      returns (r: Outcome, id: string, ghost after: seq<string>, ghost me: nat)
      requires Valid() && attempt == |tried| + 1 == |seen| + 1 && L.Distinct(tried) && seen == L.Elements(tried)
      requires Foreign(name, others)
      modifies idx`hot, sel`rrCursor, sel.sticky, state
      ensures Valid() && L.Distinct(after)
      ensures r.Leased? ==> |after| == attempt && Acquired(r.lease, after, stickyKey, model, clock, me)
      ensures if r.NoneFound() then after == tried && NothingAt(clock, tried)
              else after == tried + [id] && |after| == attempt == |seen + {id}| && L.Elements(after) == seen + {id}
      ensures SharedFirst(stickyKey, shared, old(sel.Allowed(L.At(clock, attempt), seen)), id)
    {
      hide Valid, SharedFirst, Running, Settled, L.Distinct, L.Elements, L.AccountUsable, NoneLeft, Foreign, H.Candidates;
      me := FreshId(state.attempts.Keys);
      r, id := AcquireAttempt(stickyKey, model, seen, shared, L.At(clock, attempt), draws, others, me);
      L.MoreElements(tried, id);
      after := if r.NoneFound() then tried else tried + [id];
    }

    lemma BudgetIsSpendable()
      requires Valid()
      ensures maxAttempts > 0
    {
    }

    /** The lease is out, or has no account, or there is nothing it could take off the counter. */
    ghost predicate Releasable(id: string, me: nat)
      reads state
    {
      id == "" || state.closed || Running(state.attempts, me, id) || Gate.Value(state.inflight, id) == 0
    }

    /** End a lease: the counters go down, then the result is booked. Called once per lease the shared counter stays
        exact; called again it does so only where it finds nothing to take off. */
    method Release(l: L.Lease, result: L.Result, now: int, ghost me: nat)
      requires Valid()
      modifies this`accounts, idx`hot, sel.sticky, state`inflight, state`attempts, state`cooldown
      ensures Ready() && (Valid() <==> old(Releasable(l.accountId, me)))
      ensures l.accountId != "" && old(Running(state.attempts, me, l.accountId)) ==> state.closed || Settled(state.attempts, me)
      ensures state.inflight == if l.accountId == "" || state.closed then old(state.inflight)
        else Gate.Decreased(old(state.inflight), l.accountId)
      ensures idx.hot == if idx.closed then old(idx.hot)
        else HotAfterRelease(L.Returned(old(idx.hot), l.accountId), l.accountId, result, now)
      ensures state.cooldown == if state.closed then old(state.cooldown)
        else CooldownsAfter(old(state.cooldown), l.accountId, result, now)
      ensures accounts == RowsAfterRelease(old(accounts), l.accountId, result, now)
    {
      hide Ready, Running, Settled, Releasable, L.Returned, PutRow, CooledRow, C.Memory.Valid;
      IsReady();
      CallEnds(l.accountId, me);
      if result.success {
        if l.stickyKey != "" { Bind(now, l.stickyKey, l.accountId); }
        return;
      }
      var cool := CooldownForStatus(result.statusCode, result.retryAfterNs);
      if cool.None? { return; }
      CoolDown(l.accountId, result.statusCode, now + cool.value);
    }

    lemma IsReady()
      requires Valid()
      ensures Ready() && state.Valid()
    {
    }

    lemma BlankIsCold()
      requires Ready()
      ensures "" !in idx.hot && L.Returned(idx.hot, "") == idx.hot
    {
      hide H.Indexed, Sel.Selector.Valid;
    }

    method CallEnds(id: string, ghost me: nat)
      requires Ready() && state.Valid()
      modifies idx`hot, state`inflight, state`attempts
      ensures Ready() && (state.Valid() <==> old(Releasable(id, me)))
      ensures id != "" && old(Running(state.attempts, me, id)) ==> state.closed || Settled(state.attempts, me)
      ensures state.inflight == if id == "" || state.closed then old(state.inflight) else Gate.Decreased(old(state.inflight), id)
      ensures idx.hot == if idx.closed then old(idx.hot) else L.Returned(old(idx.hot), id)
    {
      hide C.Memory.Valid, Gate.Decreased, H.Coherent, Sticky.Filed, Sticky.Reverses, Sticky.Apart;
      BlankIsCold();
      if id == "" { return; }
      var _ := idx.SubInflight(id);
      var _ := state.DecrInflight(id, Gate.Return(me));
    }

    method Bind(now: int, stickyKey: string, id: string)
      requires Ready()
      modifies sel.sticky
      ensures Ready() && sel.sticky.View() == Sticky.AfterPutPrimary(
        old(sel.sticky.View()), sel.sticky.max, now, sel.sticky.ttl, stickyKey, id, true)
    {
      hide H.Coherent, Sticky.Filed, Sticky.Reverses, Sticky.Apart, Sticky.AfterPutPrimary;
      sel.sticky.PutPrimary(now, stickyKey, id, true);
    }

    /** The account cools for this worker, for the others, and in the store; its bindings go. */
    method CoolDown(id: string, code: nat, until: int)
      requires Ready()
      modifies this`accounts, idx`hot, sel.sticky, state`cooldown
      ensures Ready() && (state.Valid() <==> old(state.Valid()))
      ensures sel.sticky.View() == if id == "" then old(sel.sticky.View()) else Sticky.DropAccount(old(sel.sticky.View()), id)
      ensures idx.hot == if idx.closed || id !in old(idx.hot) then old(idx.hot)
        else old(idx.hot)[id := old(idx.hot)[id].(cooldownUntil := until)]
      ensures state.cooldown == if state.closed then old(state.cooldown) else old(state.cooldown)[id := until]
      ensures accounts == if id in old(accounts) then PutRow(old(accounts), CooledRow(old(accounts)[id], code, until))
                          else old(accounts)
    {
      hide C.Memory.Valid, H.Coherent, Sticky.Filed, Sticky.Reverses, Sticky.Apart, Sticky.DropAccount, Decimal;
      BlankIsCold();
      var _ := idx.SetCooldown(id, until);
      state.SetCooldown(id, until);
      sel.sticky.DeleteAccount(id);
      if id in accounts { accounts := PutRow(accounts, CooledRow(accounts[id], code, until)); }
    }
  }

  function CooldownsAfter(cooldown: map<string, int>, id: string, r: L.Result, now: int): map<string, int> {
    var cool := CooldownForStatus(r.statusCode, r.retryAfterNs);
    if r.success || cool.None? then cooldown else cooldown[id := now + cool.value]
  }

  function RowsAfterRelease(t: Table, id: string, r: L.Result, now: int): Table {
    var cool := CooldownForStatus(r.statusCode, r.retryAfterNs);
    if r.success || cool.None? || id !in t then t else PutRow(t, CooledRow(t[id], r.statusCode, now + cool.value))
  }

  function HotAfterRelease(h: Sel.Hot, id: string, r: L.Result, now: int): Sel.Hot {
    var cool := CooldownForStatus(r.statusCode, r.retryAfterNs);
    if r.success || cool.None? || id !in h then h else h[id := h[id].(cooldownUntil := now + cool.value)]
  }

  function CooledRow(a: Account, code: nat, until: int): Account {
    a.(cooldownUntil := until, lastError := "status=" + Decimal(code), revision := a.revision + 1)
  }

  lemma FreshId(used: set<nat>) returns (id: nat)
    ensures id !in used
  {
    id := Above(used);
  }

  lemma {:induction false} Above(used: set<nat>) returns (bound: nat)
    ensures forall x | x in used :: x < bound
    decreases used
  {
    bound := 0;
    if used != {} {
      var x :| x in used;
      var b := Above(used - {x});
      bound := if b > x then b else x + 1;
      forall y | y in used ensures y < bound {
        if y != x { assert y in used - {x}; }
      }
    }
  }

  /** Why an attempt on an account may fail; nothing else makes it fail. A refused attempt had counted itself. */
  ghost predicate Reason(
    why: Failure, t: Table, cooldown: map<string, int>, clock: int, closed: bool, counted: bool, id: string, now: int) {
    match why
    case CoolingDown => id in cooldown && cooldown[id] > clock
    case Refused => closed || counted
    case CatalogMiss => id !in t
    case NotUsable => id in t && !L.AccountUsable(t[id], now)
    case _ => false
  }

  ghost predicate UsableLease(l: L.Lease, a: Account, stickyKey: string, model: string, attempt: nat, now: int) {
    L.AccountUsable(a, now) && L.Fits(l, a, stickyKey, model, attempt)
  }

  lemma Unstarted(attempts: map<nat, Gate.Attempt>, me: nat)
    requires me !in attempts
    ensures Settled(attempts, me)
  {
  }
}
