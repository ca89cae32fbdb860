/** The shared state of the workers: shard leases, in-flight counters, account cooldowns, refresh claims. */
module ClusterState {
  import opened Text
  import Shards = ShardLeases
  import Gate = InflightGate

  /** Somebody else's step on the shard table, or time passing. */
  datatype Event = Tick(seconds: nat) | Call(call: Shards.Call)

  function Due(refresh: map<string, int>, locks: map<string, int>, now: int): set<string> {
    set id | id in refresh && refresh[id] <= now && !(id in locks && locks[id] > now)
  }

  function Locked(locks: map<string, int>, ids: set<string>, until: int): map<string, int> {
    map id | id in locks.Keys + ids :: if id in ids then until else locks[id]
  }

  /** A claimed account cannot be claimed again before its lock runs out, even if it is queued again. */
  lemma ClaimIsExclusive(refresh: map<string, int>, locks: map<string, int>, ids: set<string>, until: int, now: int)
    requires now < until
    ensures Due(refresh, Locked(locks, ids, until), now) !! ids
    ensures Due(refresh, Locked(locks, ids, until), now) == Due(refresh, locks, now) - ids
  {
  }

  lemma StandsStill(me: string, s: Shards.State)
    ensures Shards.Unbroken([s]) && Shards.Kept(me, s, s)
  {
  }

  /** One step of somebody else, as its contract has it. */
  lemma OtherStep(me: string, e: Event, s: Shards.State, t: Shards.State)
    requires e.Call? ==> e.call.worker != me && (t == s || t == Shards.Step(s, Shards.Timed(s.clock, e.call)))
    requires e.Tick? ==> t == s.(clock := s.clock + e.seconds)
    ensures Shards.OneStep(s, t) && Shards.Kept(me, s, t)
  {
    if e.Call? { Shards.KeptByOthers(me, s, e.call); }
    hide Shards.Step;
  }

  lemma StepOn(me: string, passed: seq<Shards.State>, t: Shards.State)
    requires passed != [] && Shards.Unbroken(passed) && Shards.OneStep(passed[|passed| - 1], t)
    requires Shards.Kept(me, passed[|passed| - 1], t)
    requires forall i | 0 <= i < |passed| :: Shards.Kept(me, passed[i], passed[|passed| - 1])
    ensures Shards.Unbroken(passed + [t]) && forall i | 0 <= i < |passed + [t]| :: Shards.Kept(me, (passed + [t])[i], t)
  {
    hide Shards.OneStep;
    StandsStill(me, t);
    forall i | 0 <= i < |passed| ensures Shards.Kept(me, passed[i], t) {
      Shards.KeptTwice(me, passed[i], passed[|passed| - 1], t);
    }
    hide Shards.Kept;
  }

  class Memory {
    /** The limit all workers were configured with. */
    ghost const max: nat
    var shards: Shards.Table
    var inflight: Gate.Counter
    var cooldown: map<string, int>
    var refresh: map<string, int>
    var locks: map<string, int>
    var clock: int
    var closed: bool
    ghost var acks: map<(string, int), int>
    ghost var attempts: map<nat, Gate.Attempt>

    ghost function Leasing(): Shards.State
      reads this`shards, this`acks, this`clock
    {
      Shards.State(shards, acks, clock)
    }

    ghost function Counting(): Gate.State
      reads this`inflight, this`attempts
    {
      Gate.State(inflight, attempts)
    }

    ghost predicate Valid()
      reads this
    {
      Shards.Exclusive(Leasing()) && Gate.Gated(Counting(), max)
    }

    constructor (limit: nat, now: int)
      ensures Valid() && max == limit && clock == now && !closed
      ensures shards == map[] && acks == map[] && inflight == map[] && attempts == map[]
    {
      max := limit;
      shards, inflight, cooldown, refresh, locks, clock, closed := map[], map[], map[], map[], map[], now, false;
      acks, attempts := map[], map[];
    }

    method Tick(seconds: nat)
      requires Valid()
      modifies this`clock
      ensures Valid() && clock == old(clock) + seconds
    {
      hide Gate.Gated;
      TickExclusive(Leasing(), clock + seconds);
      clock := clock + seconds;
    }

    // ---- shards ----

    method TryAcquireShard(shard: int, worker: string, ttl: int) returns (lease: Option<Shards.Lease>, ok: bool)
      requires Valid()
      modifies this`shards, this`acks
      ensures Valid()
      ensures ok <==> !closed && Shards.Grantable(old(shards), clock, shard, worker)
      ensures (lease.None? <==> closed) && (lease.Some? ==> shard in shards && lease.value == shards[shard])
      ensures Leasing() == if closed then old(Leasing())
        else Shards.Step(old(Leasing()), Shards.Timed(clock, Shards.Acquire(worker, shard, ttl)))
    {
      hide Gate.Gated, Shards.Exclusive;
      if closed { return None, false; }
      Shards.StepExclusive(Leasing(), Shards.Timed(clock, Shards.Acquire(worker, shard, ttl)));
      var now := clock;
      if shard in shards && shards[shard].exp > now && shards[shard].worker != worker {
        return Some(shards[shard]), false;
      }
      var version := if shard in shards then shards[shard].version else 0;
      var granted := Shards.Lease(shard, worker, version + 1, now + ttl);
      shards := shards[shard := granted];
      acks := acks[(worker, shard) := now + ttl];
      return Some(granted), true;
    }

    method RenewShard(shard: int, worker: string, ttl: int) returns (ok: bool)
      requires Valid()
      modifies this`shards, this`acks
      ensures Valid()
      ensures ok <==> !closed && Shards.Owned(old(shards), shard, worker)
      ensures Leasing() == if closed then old(Leasing())
        else Shards.Step(old(Leasing()), Shards.Timed(clock, Shards.Renew(worker, shard, ttl)))
    {
      hide Gate.Gated, Shards.Exclusive;
      if closed { return false; }
      Shards.StepExclusive(Leasing(), Shards.Timed(clock, Shards.Renew(worker, shard, ttl)));
      if shard !in shards || shards[shard].worker != worker { return false; }
      shards := shards[shard := shards[shard].(exp := clock + ttl)];
      acks := acks[(worker, shard) := clock + ttl];
      return true;
    }

    method ReleaseShard(shard: int, worker: string)
      requires Valid()
      modifies this`shards, this`acks
      ensures Valid()
      ensures Leasing() == if closed then old(Leasing())
        else Shards.Step(old(Leasing()), Shards.Timed(clock, Shards.Release(worker, shard)))
    {
      hide Gate.Gated, Shards.Exclusive;
      if closed { return; }
      Shards.StepExclusive(Leasing(), Shards.Timed(clock, Shards.Release(worker, shard)));
      if shard in shards && shards[shard].worker == worker { shards := shards - {shard}; }
      acks := acks - {(worker, shard)};
    }

    /** The owner named is the one worker that may hold the shard. */
    method GetShardOwner(shard: int) returns (owner: Option<Shards.Lease>)
      requires Valid()
      ensures owner.Some? <==> !closed && shard in shards && shards[shard].exp > clock
      ensures owner.Some? ==> owner.value == shards[shard]
      ensures !closed ==> forall w | Shards.Holds(Leasing(), w, shard, clock) :: owner.Some? && owner.value.worker == w
    {
      hide Gate.Gated;
      if closed || shard !in shards || shards[shard].exp <= clock { return None; }
      return Some(shards[shard]);
    }

    /** Any steps of other workers. Beyond what runs here, callers may rely on the contract only: it leaves out
        nothing another worker can do to the leases and counters. `passed` are the leases from the first moment to
        the last, one step at a time. */
    method Others(events: seq<Event>, me: string, ghost mine: set<nat>) returns (ghost passed: seq<Shards.State>)
      requires Valid() && forall i | 0 <= i < |events| && events[i].Call? :: events[i].call.worker != me
      modifies this
      ensures Valid() && (old(closed) ==> closed)
      ensures passed != [] && passed[0] == old(Leasing()) && passed[|passed| - 1] == Leasing() && Shards.Unbroken(passed)
      ensures forall i | 0 <= i < |passed| :: Shards.Kept(me, passed[i], Leasing())
      ensures Shards.Kept(me, old(Leasing()), Leasing())
      ensures forall i :: i in mine && i in attempts <==> i in mine && i in old(attempts)
      ensures forall i | i in mine && i in attempts :: attempts[i] == old(attempts)[i]
    {
      hide Gate.Gated, Shards.Exclusive, Shards.Unbroken, Shards.OneStep, Shards.Kept;
      passed := [Leasing()];
      StandsStill(me, Leasing());
      for n := 0 to |events|
        invariant Valid() && attempts == old(attempts) && closed == old(closed)
        invariant passed != [] && passed[0] == old(Leasing()) && passed[|passed| - 1] == Leasing() && Shards.Unbroken(passed)
        invariant forall i | 0 <= i < |passed| :: Shards.Kept(me, passed[i], Leasing())
      {
        ghost var was := Leasing();
        match events[n] {
          case Tick(seconds) => Tick(seconds);
          case Call(Acquire(w, k, ttl)) => var _, _ := TryAcquireShard(k, w, ttl);
          case Call(Renew(w, k, ttl)) => var _ := RenewShard(k, w, ttl);
          case Call(Release(w, k)) => ReleaseShard(k, w);
        }
        OtherStep(me, events[n], was, Leasing());
        StepOn(me, passed, Leasing());
        passed := passed + [Leasing()];
      }
    }

    // ---- in-flight counters ----

    method IncrInflight(account: string, ghost id: nat) returns (n: int, ok: bool)
      requires Valid() && id !in attempts
      modifies this`inflight, this`attempts
      ensures Valid() && (ok <==> !closed)
      ensures Counting() == if closed then old(Counting()) else Gate.Apply(old(Counting()), Gate.Count(id, account))
      ensures ok ==> n == Gate.Value(inflight, account) == |Gate.Active(Counting(), account)|
    {
      hide Shards.Exclusive;
      if closed { return 0, false; }
      Gate.CountGated(Counting(), max, id, account);
      n := (if account in inflight then inflight[account] else 0) + 1;
      inflight := inflight[account := n];
      attempts := attempts[id := Gate.Attempt(account, Gate.Counted(n))];
      ok := true;
    }

    /** The call that counts `end`'s attempt off. */
    ghost predicate Counts(account: string, end: Gate.Move)
      reads this`inflight, this`attempts
    {
      && Gate.Enabled(Counting(), max, end) && (end.Refuse? || end.GiveUp? || end.Return?)
      && attempts[end.id].account == account
    }

    /** One less, with a floor at zero. Called once per counted attempt the floor is not needed and the counter stays
        exact; any other call leaves it exact only where it finds nothing to take off. */
    method DecrInflight(account: string, ghost end: Gate.Move) returns (n: int)
      requires Valid()
      modifies this`inflight, this`attempts
      ensures inflight == if closed then old(inflight) else Gate.Decreased(old(inflight), account)
      ensures n == if closed then 0 else Gate.Value(inflight, account)
      ensures attempts == if !closed && old(Counts(account, end)) then Gate.Apply(old(Counting()), end).attempts else old(attempts)
      ensures !closed && old(Counts(account, end)) ==> n == old(Gate.Value(inflight, account)) - 1 >= 0
      ensures Valid() <==> closed || old(Counts(account, end)) || old(Gate.Value(inflight, account)) == 0
    {
      hide Shards.Exclusive, Gate.Gated;
      if closed { return 0; }
      if Counts(account, end) { Gate.EndGated(Counting(), max, end); } else { Gate.StrayDecrement(Counting(), max, account); }
      n := (if account in inflight then inflight[account] else 0) - 1;
      if Counts(account, end) { attempts := attempts[end.id := attempts[end.id].(phase := Gate.Finished)]; }
      if n <= 0 {
        inflight := inflight - {account};
        return 0;
      }
      inflight := inflight[account := n];
    }

    ghost method Grant(id: nat)
      requires Valid() && Gate.Enabled(Counting(), max, Gate.Grant(id))
      modifies this`attempts
      ensures Valid() && Counting() == Gate.Apply(old(Counting()), Gate.Grant(id))
    {
      Gate.GrantGated(Counting(), max, id);
      attempts := attempts[id := attempts[id].(phase := Gate.Leased)];
    }

    // ---- cooldowns and refresh claims ----

    method SetCooldown(account: string, until: int)
      modifies this`cooldown
      ensures Valid() <==> old(Valid())
      ensures cooldown == if closed then old(cooldown) else old(cooldown)[account := until]
    {
      hide Shards.Exclusive, Gate.Gated;
      if !closed { cooldown := cooldown[account := until]; }
    }

    method GetCooldown(account: string) returns (until: Option<int>)
      ensures until == if !closed && account in cooldown && cooldown[account] > clock then Some(cooldown[account]) else None
    {
      if closed || account !in cooldown || cooldown[account] <= clock { return None; }
      return Some(cooldown[account]);
    }

    method AddRefreshDue(account: string, due: int)
      requires Valid()
      modifies this`refresh
      ensures Valid() && refresh == if closed then old(refresh) else old(refresh)[account := due]
    {
      if !closed { refresh := refresh[account := due]; }
    }

    /** As many due and unlocked accounts as asked for, at least one if there is one; each is locked and taken off. */
    method ClaimRefreshDue(now: int, limit: int, lockTTL: int) returns (out: seq<string>)
      requires Valid()
      modifies this`refresh, this`locks
      ensures Valid()
      ensures closed ==> out == [] && refresh == old(refresh) && locks == old(locks)
      ensures !closed ==>
        var claimed := Names(out);
        var due := Due(old(refresh), old(locks), now);
        && claimed <= due && |out| == |claimed|
        && |out| == (var want := if limit <= 0 then 1 else limit; if |due| < want then |due| else want)
        && refresh == old(refresh) - claimed && locks == Locked(old(locks), claimed, now + lockTTL)
    {
      hide Shards.Exclusive, Gate.Gated, Due, Locked, Names;
      if closed { return []; }
      refresh, locks, out := ClaimFrom(refresh, locks, now, if limit <= 0 then 1 else limit, now + lockTTL);
    }
  }

  method ClaimFrom(refresh0: map<string, int>, locks0: map<string, int>, now: int, want: nat, until: int)
    returns (refresh: map<string, int>, locks: map<string, int>, out: seq<string>)
    ensures var due := Due(refresh0, locks0, now);
      Names(out) <= due && |out| == |Names(out)| == if |due| < want then |due| else want
    ensures refresh == refresh0 - Names(out) && locks == Locked(locks0, Names(out), until)
  {
    hide Due, Locked, Claiming, Names;
    refresh, locks, out := refresh0, locks0, [];
    var rest := refresh.Keys;
    ClaimStart(refresh, locks, now);
    NamesMore([], "");
    while rest != {} && |out| < want
      invariant Claiming(refresh0, locks0, now, Names(out), rest) && |out| == |Names(out)| <= want
      invariant refresh == refresh0 - Names(out) && locks == Locked(locks0, Names(out), until)
      decreases rest
    {
      var id :| id in rest;
      ClaimOne(refresh0, locks0, now, Names(out), rest, id, until);
      rest := rest - {id};
      if refresh[id] > now { continue; }
      if id in locks && locks[id] > now { continue; }
      NamesMore(out, id);
      locks := locks[id := until];
      refresh := refresh - {id};
      out := out + [id];
    }
    ClaimEnd(refresh0, locks0, now, Names(out), rest, want);
  }

  /** `claimed` are due, and everything due is claimed or still to be looked at. */
  ghost predicate Claiming(
    refresh: map<string, int>, locks: map<string, int>, now: int, claimed: set<string>, rest: set<string>) {
    && rest <= refresh.Keys && claimed !! rest
    && claimed <= Due(refresh, locks, now) <= claimed + rest
  }

  lemma ClaimStart(refresh: map<string, int>, locks: map<string, int>, now: int)
    ensures Claiming(refresh, locks, now, {}, refresh.Keys)
    ensures forall until :: Locked(locks, {}, until) == locks
  {
  }

  /** Looking at one account: whether it may be claimed shows the same now as at the start. */
  lemma ClaimOne(
    refresh: map<string, int>, locks: map<string, int>, now: int, claimed: set<string>, rest: set<string>, id: string,
    until: int)
    requires Claiming(refresh, locks, now, claimed, rest) && id in rest
    ensures var cur := Locked(locks, claimed, until);
      && id in refresh && id !in claimed && id in refresh - claimed && (refresh - claimed)[id] == refresh[id]
      && (id in cur <==> id in locks) && (id in cur ==> cur[id] == locks[id])
      && (if refresh[id] > now || (id in locks && locks[id] > now) then Claiming(refresh, locks, now, claimed, rest - {id})
          else Claiming(refresh, locks, now, claimed + {id}, rest - {id}))
      && Locked(locks, claimed + {id}, until) == cur[id := until]
      && (refresh - claimed) - {id} == refresh - (claimed + {id})
  {
  }

  lemma ClaimEnd(
    refresh: map<string, int>, locks: map<string, int>, now: int, claimed: set<string>, rest: set<string>, want: nat)
    requires Claiming(refresh, locks, now, claimed, rest) && |claimed| <= want && (rest == {} || |claimed| >= want)
    ensures var due := Due(refresh, locks, now);
      claimed <= due && |claimed| == if |due| < want then |due| else want
  {
    SmallerNames(claimed, Due(refresh, locks, now));
  }

  ghost function Names(ids: seq<string>): set<string> {
    set id | id in ids
  }

  lemma NamesMore(ids: seq<string>, id: string)
    ensures Names(ids + [id]) == Names(ids) + {id}
    ensures Names([]) == {}
  {
  }

  lemma TickExclusive(s: Shards.State, now: int)
    requires Shards.Exclusive(s) && now >= s.clock
    ensures Shards.Exclusive(s.(clock := now))
  {
    forall w, k | Shards.Holds(s.(clock := now), w, k, now)
      ensures Shards.Owned(s.table, k, w) && s.table[k].exp == s.acks[(w, k)]
    {
      assert Shards.Holds(s, w, k, s.clock);
    }
  }

  lemma SmallerNames(a: set<string>, b: set<string>)
    requires a <= b
    ensures |a| <= |b|
    ensures |a| == |b| ==> a == b
  {
    var rest := b - a;
    assert b == a + rest;
  }
}
