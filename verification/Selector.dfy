/** Picking an account for a call: sticky binding first, then a strategy over the eligible hot set. */
module Selection {
  import opened Text
  import opened Catalog
  import H = HotIndex
  import Sticky = StickyLru

  const StrategyStableRR := "stable_rr"
  /** Round robin never looks below this priority. */
  const Floor: int := -0x4000_0000
  const Word: nat := 0x1_0000_0000_0000_0000

  datatype Config = Config(
    strategy: string, pow2K: int, wPriority: real, wInflight: real, wFailure: real, jitterAmp: real)

  type Hot = map<string, HotMeta>

  predicate IsRoundRobin(strategy: string) {
    strategy == StrategyStableRR || strategy == "round_robin" || strategy == "rr"
  }

  // ---- ids in ascending order ----

  ghost predicate Ascends(s: seq<string>) {
    forall i, j | 0 <= i < j < |s| :: Less(s[i], s[j])
  }

  ghost predicate Lists(s: seq<string>, ids: set<string>) {
    Ascends(s) && forall x :: x in s <==> x in ids
  }

  function InsertId(s: seq<string>, x: string): seq<string> {
    if s == [] || Less(x, s[0]) then [x] + s else [s[0]] + InsertId(s[1..], x)
  }

  lemma {:induction false} InsertIdHas(s: seq<string>, x: string)
    ensures forall y :: y in InsertId(s, x) <==> y == x || y in s
  {
    if !(s == [] || Less(x, s[0])) {
      InsertIdHas(s[1..], x);
      assert forall y :: y in s <==> y == s[0] || y in s[1..];
    }
  }

  lemma {:induction false} InsertIdAscends(s: seq<string>, x: string)
    requires Ascends(s) && x !in s
    ensures Ascends(InsertId(s, x))
  {
    if s == [] {
    } else if Less(x, s[0]) {
      forall j | 0 <= j < |s| ensures Less(x, s[j]) {
        if j > 0 { LessTransitive(x, s[0], s[j]); }
      }
    } else {
      InsertIdAscends(s[1..], x);
      InsertIdHas(s[1..], x);
      LessTotal(x, s[0]);
      var r := InsertId(s[1..], x);
      forall j | 0 <= j < |r| ensures Less(s[0], r[j]) {
        assert r[j] in r;
      }
    }
  }

  /** The ids of a set in ascending order. */
  ghost function Sorted(ids: set<string>): seq<string> {
    if ids == {} then [] else
      var x :| x in ids;
      InsertId(Sorted(ids - {x}), x)
  }

  lemma {:induction false} SortedLists(ids: set<string>)
    ensures Lists(Sorted(ids), ids)
  {
    if ids != {} {
      var x :| x in ids && Sorted(ids) == InsertId(Sorted(ids - {x}), x);
      SortedLists(ids - {x});
      InsertIdAscends(Sorted(ids - {x}), x);
      InsertIdHas(Sorted(ids - {x}), x);
    }
  }

  /** Ascending order leaves no choice: how the set was walked does not show. */
  lemma {:induction false} ListsUnique(s: seq<string>, r: seq<string>, ids: set<string>)
    requires Lists(s, ids) && Lists(r, ids)
    ensures s == r
    decreases |s|
  {
    if s == [] {
      if r != [] { ListsHead(r, s, ids); }
    } else {
      ListsHead(s, r, ids);
      ListsTail(s, ids);
      ListsTail(r, ids);
      ListsUnique(s[1..], r[1..], ids - {s[0]});
    }
  }

  lemma ListsHead(s: seq<string>, r: seq<string>, ids: set<string>)
    requires Lists(s, ids) && Lists(r, ids) && s != []
    ensures r != [] && r[0] == s[0]
  {
    assert s[0] in s && s[0] in r;
    assert r[0] in r && r[0] in s;
    if r[0] != s[0] {
      LessTransitive(s[0], r[0], s[0]);
      LessIrreflexive(s[0]);
    }
  }

  lemma ListsTail(s: seq<string>, ids: set<string>)
    requires Lists(s, ids) && s != []
    ensures Lists(s[1..], ids - {s[0]})
  {
    LessIrreflexive(s[0]);
    forall x ensures x in s[1..] <==> x in ids - {s[0]} {
      assert x in s <==> x == s[0] || x in s[1..];
    }
  }

  lemma ListsSize(s: seq<string>, ids: set<string>)
    requires Lists(s, ids)
    ensures |s| == |ids|
  {
    forall i, j | 0 <= i < j < |s| ensures s[i] != s[j] { LessIrreflexive(s[i]); }
    DistinctSize(s, ids);
  }

  lemma {:induction false} DistinctSize(s: seq<string>, ids: set<string>)
    requires forall i, j | 0 <= i < j < |s| :: s[i] != s[j]
    requires forall x :: x in s <==> x in ids
    ensures |s| == |ids|
    decreases |s|
  {
    if s == [] {
      assert ids == {};
    } else {
      assert s[0] in ids;
      forall x ensures x in s[1..] <==> x in ids - {s[0]} {
        assert x in s <==> x == s[0] || x in s[1..];
      }
      DistinctSize(s[1..], ids - {s[0]});
    }
  }

  // ---- the top tier ----

  /** The candidates of the highest priority, provided it is not below the floor. */
  ghost function Tier(hot: Hot, cands: set<string>): set<string>
    requires cands <= hot.Keys
  {
    set x | x in cands && Floor <= hot[x].priority && forall y | y in cands :: hot[y].priority <= hot[x].priority
  }

  ghost function AtPriority(hot: Hot, ids: set<string>, pri: int): set<string>
    requires ids <= hot.Keys
  {
    set x | x in ids && hot[x].priority == pri
  }

  /** `pri` is the highest priority among `ids`, or the floor. */
  ghost predicate Best(hot: Hot, ids: set<string>, pri: int)
    requires ids <= hot.Keys
  {
    && Floor <= pri && (forall x | x in ids :: hot[x].priority <= pri)
    && (pri == Floor || AtPriority(hot, ids, pri) != {})
  }

  lemma BestIsTier(hot: Hot, ids: set<string>, pri: int)
    requires ids <= hot.Keys && Best(hot, ids, pri)
    ensures AtPriority(hot, ids, pri) == Tier(hot, ids)
  {
    if AtPriority(hot, ids, pri) != {} {
      var x :| x in AtPriority(hot, ids, pri);
    }
  }

  lemma BestMore(hot: Hot, ids: set<string>, pri: int, id: string)
    requires ids <= hot.Keys && id in hot && id !in ids && Best(hot, ids, pri)
    ensures var p := hot[id].priority;
      && Best(hot, ids + {id}, if p > pri then p else pri)
      && AtPriority(hot, ids + {id}, if p > pri then p else pri)
      == (if p > pri then {id} else if p == pri then AtPriority(hot, ids, pri) + {id} else AtPriority(hot, ids, pri))
  {
    assert id in AtPriority(hot, ids + {id}, hot[id].priority);
    assert AtPriority(hot, ids, pri) <= AtPriority(hot, ids + {id}, pri);
  }

  /** Round robin finds nothing exactly when every candidate is below the floor. */
  lemma TierEmpty(hot: Hot, cands: set<string>)
    requires cands <= hot.Keys
    ensures Tier(hot, cands) == {} <==> forall x | x in cands :: hot[x].priority < Floor
  {
    if exists x :: x in cands && hot[x].priority >= Floor {
      var x :| x in cands && hot[x].priority >= Floor;
      var top := Highest(hot, cands, x);
      assert top in Tier(hot, cands);
    }
  }

  lemma {:induction false} Highest(hot: Hot, cands: set<string>, x: string) returns (top: string)
    requires cands <= hot.Keys && x in cands
    ensures top in cands && hot[top].priority >= hot[x].priority
    ensures forall y | y in cands :: hot[y].priority <= hot[top].priority
    decreases cands
  {
    top := x;
    if cands != {x} {
      var y :| y in cands && y != x;
      top := Highest(hot, cands - {x}, y);
      if hot[x].priority > hot[top].priority { top := x; }
    }
  }

  /** An account below the floor is eligible and still never picked by round robin. */
  lemma BelowFloorIsSkipped(hot: Hot)
    requires "a" in hot && hot["a"].priority == Floor - 1
    ensures Tier(hot, {"a"}) == {}
  {
    assert "a" in {"a"};
  }

  // ---- sorting the tier ----

  function Ids(ms: seq<HotMeta>): (r: seq<string>)
    ensures |r| == |ms|
    ensures forall i | 0 <= i < |r| :: r[i] == ms[i].id
  {
    seq(|ms|, i requires 0 <= i < |ms| => ms[i].id)
  }

  ghost predicate DistinctIds(ms: seq<HotMeta>) {
    forall i, j | 0 <= i < j < |ms| :: ms[i].id != ms[j].id
  }

  /** In order up to position i, except that the element at j may belong further left. */
  ghost predicate Sinking(s: seq<HotMeta>, i: nat, j: nat)
    requires i < |s|
  {
    forall p, q | 0 <= p < q <= i && q != j :: Less(s[p].id, s[q].id)
  }

  function Exchanged(s: seq<HotMeta>, j: nat): seq<HotMeta>
    requires 0 < j < |s|
  {
    s[j := s[j - 1]][j - 1 := s[j]]
  }

  lemma SinkStep(s: seq<HotMeta>, i: nat, j: nat)
    requires 0 < j <= i < |s| && Sinking(s, i, j) && Less(s[j].id, s[j - 1].id)
    ensures Sinking(Exchanged(s, j), i, j - 1)
  {
    var t := Exchanged(s, j);
    forall p, q | 0 <= p < q <= i && q != j - 1 ensures Less(t[p].id, t[q].id) {
      if q == j && p < j - 1 { assert Less(s[p].id, s[j - 1].id); }
      if q > j { assert Less(s[j].id, s[q].id) && Less(s[j - 1].id, s[q].id); }
    }
  }

  lemma SinkDone(s: seq<HotMeta>, i: nat, j: nat)
    requires j <= i < |s| && Sinking(s, i, j) && DistinctIds(s)
    requires j > 0 ==> !Less(s[j].id, s[j - 1].id)
    ensures Ascends(Ids(s[..i + 1]))
  {
    forall p, q | 0 <= p < q <= i ensures Less(s[p].id, s[q].id) {
      if q == j {
        LessTotal(s[j].id, s[j - 1].id);
        if p < j - 1 { LessTransitive(s[p].id, s[j - 1].id, s[j].id); }
      }
    }
  }

  lemma ExchangedPicks(hot: Hot, s: seq<HotMeta>, j: nat, seen: set<string>)
    requires 0 < j < |s| && H.Picks(hot, s, seen)
    ensures H.Picks(hot, Exchanged(s, j), seen)
  {
  }

  /** A listing of `seen` in ascending order is the listing of `seen`. */
  lemma PicksSorted(hot: Hot, s: seq<HotMeta>, seen: set<string>)
    requires H.Picks(hot, s, seen) && Ascends(Ids(s))
    ensures Ids(s) == Sorted(seen)
  {
    var ids := Ids(s);
    var all := set i | 0 <= i < |ids| :: ids[i];
    DistinctSize(ids, all);
    H.SubsetSize(all, seen);
    SortedLists(seen);
    ListsUnique(ids, Sorted(seen), seen);
  }

  /** The insertion sort: whatever order the entries come in, the ids end up ascending. */
  method SortById(a: array<HotMeta>, ghost hot: Hot, ghost seen: set<string>)
    requires H.Picks(hot, a[..], seen) && a.Length > 0
    modifies a
    ensures H.Picks(hot, a[..], seen) && Ids(a[..]) == Sorted(seen)
  {
    hide H.Picks, Sinking, Ascends;
    var n := a.Length;
    SinkStart(a[..]);
    for i := 1 to n
      invariant H.Picks(hot, a[..], seen)
      invariant Ascends(Ids(a[..i]))
    {
      var j := i;
      SinkBegin(a[..], i);
      while j > 0 && Less(a[j].id, a[j - 1].id)
        invariant 0 <= j <= i
        invariant H.Picks(hot, a[..], seen)
        invariant Sinking(a[..], i, j)
      {
        ghost var s := a[..];
        SinkStep(s, i, j);
        ExchangedPicks(hot, s, j, seen);
        a[j], a[j - 1] := a[j - 1], a[j];
        assert a[..] == Exchanged(s, j);
        j := j - 1;
      }
      PicksDistinct(hot, a[..], seen);
      SinkDone(a[..], i, j);
      assert a[..][..i + 1] == a[..i + 1];
    }
    assert a[..n] == a[..];
    PicksSorted(hot, a[..], seen);
  }

  lemma PicksDistinct(hot: Hot, s: seq<HotMeta>, seen: set<string>)
    requires H.Picks(hot, s, seen)
    ensures DistinctIds(s)
  {
  }

  lemma SinkStart(s: seq<HotMeta>)
    ensures |s| >= 1 ==> Ascends(Ids(s[..1]))
  {
  }

  lemma SinkBegin(s: seq<HotMeta>, i: nat)
    requires i < |s| && Ascends(Ids(s[..i]))
    ensures Sinking(s, i, i)
  {
    forall p, q | 0 <= p < q < i ensures Less(s[p].id, s[q].id) {
      assert Ids(s[..i])[p] == s[p].id && Ids(s[..i])[q] == s[q].id;
    }
  }

  // ---- scoring ----

  function ScoreWith(cfg: Config, m: HotMeta, jitter: real): real {
    cfg.wPriority * m.priority as real - cfg.wInflight * m.inflight as real - cfg.wFailure * m.failureScore as real
    + jitter
  }

  /** One jitter sample in [-amp, amp) from a draw in [0, 1). */
  function Jitter(amp: real, draw: real): real {
    if amp == 0.0 then 0.0 else (draw * 2.0 - 1.0) * amp
  }

  function Score(cfg: Config, m: HotMeta, draw: real): real {
    ScoreWith(cfg, m, Jitter(cfg.jitterAmp, draw))
  }

  /** `id` has the best score of the sample, and the least id among equals. */
  ghost predicate BestScored(cfg: Config, sample: seq<HotMeta>, draws: nat -> real, id: string) {
    exists b :: 0 <= b < |sample| && sample[b].id == id && Beats(cfg, sample, draws, b, |sample|)
  }

  ghost predicate Beats(cfg: Config, sample: seq<HotMeta>, draws: nat -> real, b: nat, n: nat)
    requires b < |sample| && n <= |sample|
  {
    forall j | 0 <= j < n && j != b ::
      || Score(cfg, sample[j], draws(j)) < Score(cfg, sample[b], draws(b))
      || (Score(cfg, sample[j], draws(j)) == Score(cfg, sample[b], draws(b)) && !Less(sample[j].id, sample[b].id))
  }

  lemma BeatsMore(cfg: Config, sample: seq<HotMeta>, draws: nat -> real, b: nat, n: nat)
    requires b < n < |sample| && Beats(cfg, sample, draws, b, n)
    ensures var sb, sn := Score(cfg, sample[b], draws(b)), Score(cfg, sample[n], draws(n));
      Beats(cfg, sample, draws, if sn > sb || (sn == sb && Less(sample[n].id, sample[b].id)) then n else b, n + 1)
  {
    hide Score;
    var sb, sn := Score(cfg, sample[b], draws(b)), Score(cfg, sample[n], draws(n));
    if sn == sb && Less(sample[n].id, sample[b].id) {
      forall j | 0 <= j < n && Less(sample[j].id, sample[n].id) ensures Less(sample[j].id, sample[b].id) {
        LessTransitive(sample[j].id, sample[n].id, sample[b].id);
      }
      LessOneWay(sample[n].id, sample[b].id);
    }
  }

  lemma LessOneWay(a: string, b: string)
    requires Less(a, b)
    ensures !Less(b, a)
  {
    if Less(b, a) {
      LessTransitive(a, b, a);
      LessIrreflexive(a);
    }
  }

  // ---- walking the eligible list ----

  ghost function IdsOf(ms: seq<HotMeta>): set<string> {
    set i | 0 <= i < |ms| :: ms[i].id
  }

  lemma IdsOfMore(ms: seq<HotMeta>, i: nat)
    requires i < |ms|
    ensures IdsOf(ms[..i + 1]) == IdsOf(ms[..i]) + {ms[i].id}
    ensures DistinctIds(ms) ==> ms[i].id !in IdsOf(ms[..i])
  {
    assert ms[..i + 1] == ms[..i] + [ms[i]];
    forall x | x in IdsOf(ms[..i + 1]) ensures x in IdsOf(ms[..i]) + {ms[i].id} {
      var k :| 0 <= k < i + 1 && ms[..i + 1][k].id == x;
      if k < i { assert ms[..i][k].id == x; }
    }
    forall x | x in IdsOf(ms[..i]) ensures x in IdsOf(ms[..i + 1]) {
      var k :| 0 <= k < i && ms[..i][k].id == x;
      assert ms[..i + 1][k].id == x;
    }
    assert ms[..i + 1][i].id in IdsOf(ms[..i + 1]);
  }

  lemma PicksAll(hot: Hot, ms: seq<HotMeta>, seen: set<string>)
    requires H.Picks(hot, ms, seen)
    ensures IdsOf(ms) == seen && seen <= hot.Keys && DistinctIds(ms)
    ensures forall i | 0 <= i < |ms| :: ms[i].id in hot && hot[ms[i].id] == ms[i]
  {
    DistinctSize(Ids(ms), IdsOf(ms));
    H.SubsetSize(IdsOf(ms), seen);
  }

  lemma PicksOne(hot: Hot, m: HotMeta)
    requires m.id in hot && hot[m.id] == m
    ensures H.Picks(hot, [m], {m.id})
  {
  }

  lemma BestStart(hot: Hot)
    ensures Best(hot, {}, Floor) && AtPriority(hot, {}, Floor) == {} && H.Picks(hot, [], {})
  {
  }

  /** Keep the not excluded entries of the highest priority seen so far. */
  method TopTier(all: seq<HotMeta>, exclude: set<string>, ghost hot: Hot, ghost eligible: set<string>)
    returns (cands: seq<HotMeta>)
    requires H.Picks(hot, all, eligible) && eligible <= hot.Keys
    ensures H.Picks(hot, cands, Tier(hot, eligible - exclude))
  {
    hide H.Picks, Tier, Best, AtPriority, IdsOf;
    PicksAll(hot, all, eligible);
    var bestPri := Floor;
    cands := [];
    ghost var done: set<string> := {};
    BestStart(hot);
    NoIds(all);
    for i := 0 to |all|
      invariant IdsOf(all[..i]) <= hot.Keys && done == IdsOf(all[..i]) - exclude && Best(hot, done, bestPri)
      invariant H.Picks(hot, cands, AtPriority(hot, done, bestPri))
    {
      var m := all[i];
      IdsOfMore(all, i);
      if m.id in exclude { continue; }
      BestMore(hot, done, bestPri, m.id);
      ghost var was := done;
      done := done + {m.id};
      if m.priority > bestPri {
        bestPri := m.priority;
        PicksOne(hot, m);
        cands := [m];
        continue;
      }
      if m.priority == bestPri {
        NotYet(hot, was, bestPri, m.id);
        H.PicksMore(hot, cands, AtPriority(hot, was, bestPri), m.id);
        cands := cands + [m];
      }
    }
    assert all[..|all|] == all;
    BestIsTier(hot, done, bestPri);
  }

  lemma NoIds(all: seq<HotMeta>)
    ensures IdsOf(all[..0]) == {}
  {
  }

  lemma NotYet(hot: Hot, ids: set<string>, pri: int, id: string)
    requires ids <= hot.Keys && id !in ids
    ensures id !in AtPriority(hot, ids, pri)
  {
  }

  /** The round-robin choice at a cursor value. */
  ghost function Turn(ids: set<string>, cursor: nat): string
    requires ids != {}
  {
    SortedLists(ids);
    ListsSize(Sorted(ids), ids);
    Sorted(ids)[cursor % |ids|]
  }

  /** The live binding of a session key. */
  function Bound(es: seq<Sticky.Entry>, at: int, key: string): Option<Sticky.Entry> {
    if key != "" && Sticky.Has(es, key) && !Sticky.Expired(Sticky.Find(es, key), at) then Some(Sticky.Find(es, key))
    else None
  }

  /** What the strategy can choose from. */
  ghost function Reachable(strategy: string, hot: Hot, allowed: set<string>): set<string>
    requires allowed <= hot.Keys
  {
    if IsRoundRobin(strategy) then Tier(hot, allowed) else allowed
  }

  /** The bindings after `account` was picked anew for a key. */
  function Rebound(es: seq<Sticky.Entry>, max: nat, at: int, ttl: int, key: string, account: string): seq<Sticky.Entry>
    requires max > 0
  {
    if key == "" then es else Sticky.AfterPutPrimary(es, max, at, ttl, key, account, true)
  }

  class Selector {
    const idx: H.Index
    const sticky: Sticky.Lru
    const cfg: Config
    var rrCursor: nat

    ghost predicate Valid()
      reads this, idx, sticky
    {
      idx.Valid() && sticky.Valid() && rrCursor < Word
    }

    ghost function Allowed(at: int, exclude: set<string>): set<string>
      reads idx
    {
      H.Candidates(idx.hot, at, idx.maxInflight, exclude)
    }

    constructor (index: H.Index, config: Config, stickyMax: int, stickyTTL: int)
      requires index.Valid()
      ensures Valid() && idx == index && cfg == config && rrCursor == 0 && fresh(sticky) && sticky.View() == []
    {
      idx, cfg, rrCursor := index, config, 0;
      sticky := new Sticky.Lru(stickyMax, stickyTTL);
    }

    /** Round robin over the top tier, in id order; `now` below 1 means the clock. */
    method StableRRPick(now: int, exclude: set<string>, clock: int) returns (id: string, ok: bool)
      requires Valid()
      modifies this`rrCursor
      ensures Valid()
      ensures var tier := Tier(idx.hot, Allowed(if now <= 0 then clock else now, exclude));
        && (ok <==> tier != {})
        && (ok ==> id == Turn(tier, old(rrCursor)) && rrCursor == (old(rrCursor) + 1) % Word)
        && (!ok ==> id == "" && rrCursor == old(rrCursor))
    {
      hide H.Picks, H.Indexed, Sorted, Tier, Best, AtPriority;
      ghost var hot, at := idx.hot, if now <= 0 then clock else now;
      var all := idx.Eligible(now, clock);
      ghost var eligible := H.Candidates(hot, at, idx.maxInflight, {});
      assert eligible - exclude == Allowed(at, exclude);
      var cands := TopTier(all, exclude, hot, eligible);
      ghost var tier := Tier(hot, eligible - exclude);
      PicksSize(hot, cands, tier);
      if cands == [] { return "", false; }
      var a := new HotMeta[|cands|](i requires 0 <= i < |cands| => cands[i]);
      assert a[..] == cands;
      SortById(a, hot, tier);
      var i := rrCursor % a.Length;
      rrCursor := (rrCursor + 1) % Word;
      assert Ids(a[..])[i] == a[i].id;
      return a[i].id, true;
    }

    /** The best-scored of `k` sampled candidates; `now` below 1 means the clock. */
    method Pow2Pick(now: int, exclude: set<string>, clock: int, intn: H.Oracle, draws: nat -> real)
      returns (id: string, ok: bool, ghost sample: seq<HotMeta>)
      requires Valid()
      ensures var at := if now <= 0 then clock else now;
        && H.Sampled(idx.hot, sample, Allowed(at, exclude), if cfg.pow2K <= 0 then 1 else cfg.pow2K)
        && (ok <==> Allowed(at, exclude) != {}) && (ok ==> id in Allowed(at, exclude))
      ensures if ok then BestScored(cfg, sample, draws, id) else id == ""
    {
      hide H.Indexed, Score;
      var k := if cfg.pow2K <= 0 then 1 else cfg.pow2K;
      var picked := idx.SampleEligible(now, k, exclude, clock, intn);
      sample := picked;
      if picked == [] { return "", false, sample; }
      var best := 0;
      for i := 1 to |picked|
        invariant 0 <= best < i
        invariant Beats(cfg, picked, draws, best, i)
      {
        BeatsMore(cfg, picked, draws, best, i);
        var sc, bestScore := Score(cfg, picked[i], draws(i)), Score(cfg, picked[best], draws(best));
        if sc > bestScore || (sc == bestScore && Less(picked[i].id, picked[best].id)) { best := i; }
      }
      return picked[best].id, true, sample;
    }

    method PickByStrategy(at: int, exclude: set<string>, clock: int, intn: H.Oracle, draws: nat -> real)
      returns (id: string, ok: bool)
      requires Valid() && at > 0
      modifies this`rrCursor
      ensures Valid()
      ensures var allowed := Allowed(at, exclude);
        && (ok <==> Reachable(cfg.strategy, idx.hot, allowed) != {})
        && (if ok then id in Reachable(cfg.strategy, idx.hot, allowed) else id == "")
        && (ok && IsRoundRobin(cfg.strategy) ==> id == Turn(Tier(idx.hot, allowed), old(rrCursor)))
    {
      hide H.Indexed, H.Sampled, Tier, Turn, BestScored;
      ghost var allowed := Allowed(at, exclude);
      if IsRoundRobin(cfg.strategy) {
        id, ok := StableRRPick(at, exclude, clock);
        if ok { TurnInTier(Tier(idx.hot, allowed), old(rrCursor)); }
      } else {
        ghost var sample;
        id, ok, sample := Pow2Pick(at, exclude, clock, intn, draws);
        if ok { BestIsSampled(cfg, idx.hot, sample, draws, id, allowed, if cfg.pow2K <= 0 then 1 else cfg.pow2K); }
      }
    }

    /** The primary if it may serve, else the secondary (which is promoted), else the strategy's choice (which is
        bound). */
    method PickExcluding(
      now: int, stickyKey: string, exclude: set<string>, clock: int, intn: H.Oracle, draws: nat -> real)
      returns (id: string, ok: bool)
      requires Valid() && clock > 0
      modifies this`rrCursor, sticky
      ensures Valid()
      ensures var at := if now <= 0 then clock else now;
        var allowed := Allowed(at, exclude);
        var bound := Bound(old(sticky.View()), at, stickyKey);
        var seen := Sticky.AfterGet(old(sticky.View()), at, sticky.ttl, stickyKey);
        if bound.Some? && bound.value.primary in allowed then
          ok && id == bound.value.primary && sticky.View() == seen && rrCursor == old(rrCursor)
        else if bound.Some? && bound.value.secondary in allowed then
          && ok && id == bound.value.secondary && rrCursor == old(rrCursor)
          && sticky.View() == Rebound(seen, sticky.max, at, sticky.ttl, stickyKey, id)
        else
          && (ok <==> Reachable(cfg.strategy, idx.hot, allowed) != {})
          && (if ok then id in Reachable(cfg.strategy, idx.hot, allowed) else id == "")
          && (ok && IsRoundRobin(cfg.strategy) ==> id == Turn(Tier(idx.hot, allowed), old(rrCursor)))
          && sticky.View() == if ok then Rebound(seen, sticky.max, at, sticky.ttl, stickyKey, id) else seen
    {
      hide H.Indexed, Reachable, Tier, Turn, Sticky.Filed, Sticky.Reverses, Sticky.AfterGet,
        Sticky.AfterPutPrimary, Sticky.Apart, Sticky.Find, Sticky.Listed, Sticky.Has;
      var at := if now <= 0 then clock else now;
      if stickyKey != "" {
        var p, sec, hit := sticky.GetPair(at, stickyKey);
        if hit {
          if p != "" && p !in exclude && p in idx.hot
             && H.EligibleWithInflightCap(idx.hot[p], at, idx.maxInflight) {
            return p, true;
          }
          if sec != "" && sec !in exclude && sec in idx.hot
             && H.EligibleWithInflightCap(idx.hot[sec], at, idx.maxInflight) {
            sticky.PutPrimary(at, stickyKey, sec, true);
            return sec, true;
          }
        }
      } else {
        NoKey(sticky.View(), at, sticky.ttl);
      }
      id, ok := PickByStrategy(at, exclude, clock, intn, draws);
      if !ok { return "", false; }
      if stickyKey != "" { sticky.PutPrimary(at, stickyKey, id, true); }
      return id, true;
    }
  }

  // ---- fairness ----

  /** The next `n` round-robin choices while the tier stays the same. */
  ghost function Turns(ids: set<string>, cursor: nat, n: nat): (r: seq<string>)
    requires ids != {}
    ensures |r| == n
    decreases n
  {
    if n == 0 then [] else [Turn(ids, cursor)] + Turns(ids, (cursor + 1) % Word, n - 1)
  }

  lemma {:induction false} TurnsAt(ids: set<string>, cursor: nat, n: nat, k: nat)
    requires ids != {} && k < n && cursor < Word
    ensures Turns(ids, cursor, n)[k] == Turn(ids, (cursor + k) % Word)
    decreases k
  {
    hide Turn;
    if k > 0 {
      TurnsAt(ids, (cursor + 1) % Word, n - 1, k - 1);
      assert ((cursor + 1) % Word + (k - 1)) % Word == (cursor + k) % Word;
    }
  }

  ghost predicate AllDifferent(s: seq<string>) {
    forall i, j | 0 <= i < j < |s| :: s[i] != s[j]
  }

  /** Two cursors choose the same id exactly when they agree modulo the tier size. */
  lemma SameTurn(ids: set<string>, c: nat, d: nat)
    requires ids != {}
    ensures Turn(ids, c) == Turn(ids, d) <==> c % |ids| == d % |ids|
  {
    SortedLists(ids);
    ListsSize(Sorted(ids), ids);
    var s, i, j := Sorted(ids), c % |ids|, d % |ids|;
    if i < j { LessIrreflexive(s[i]); }
    if j < i { LessIrreflexive(s[i]); }
  }

  lemma TimesAtLeast(k: int, n: nat)
    requires k >= 1
    ensures k * n >= n
  {
  }

  lemma ModOf(q: nat, n: nat, r: nat)
    requires r < n
    ensures (q * n + r) % n == r
  {
    var x := q * n + r;
    var a, b := x / n, x % n;
    assert x == a * n + b;
    assert (q - a) * n == b - r;
    assert (a - q) * n == r - b;
    if a < q { TimesAtLeast(q - a, n); }
    if a > q { TimesAtLeast(a - q, n); }
  }

  lemma CloseResidues(c: nat, d: nat, n: nat)
    requires c < d < c + n
    ensures c % n != d % n
  {
    var q, r := c / n, c % n;
    assert c == q * n + r;
    if d < q * n + n {
      ModOf(q, n, d - q * n);
    } else {
      assert q * n + n == (q + 1) * n;
      ModOf(q + 1, n, d - (q + 1) * n);
    }
  }

  /** When a wrap does not fall on a multiple of n, two of n consecutive cursors share a residue. */
  lemma WrapCollides(c: nat, n: nat) returns (i: nat, j: nat)
    requires 0 < n <= Word && c < Word < c + n && Word % n != 0
    ensures i < j < n && ((c + i) % Word) % n == ((c + j) % Word) % n
  {
    var p, q, r := Word - c, Word / n, Word % n;
    assert Word == q * n + r;
    i, j := if r <= p then p - r else 0, if r <= p then p else r;
    var e := if r <= p then 0 else r - p;
    assert c + i == q * n + e;
    WrapAt(c, i, q, n, e);
    WrapPast(c, j, n, e);
  }

  lemma WrapPast(c: nat, j: nat, n: nat, e: nat)
    requires e < n && c + j == Word + e && e < Word
    ensures ((c + j) % Word) % n == e
  {
    assert (c + j) % Word == e;
  }

  lemma WrapAt(c: nat, i: nat, q: nat, n: nat, e: nat)
    requires e < n && c + i == q * n + e < Word
    ensures ((c + i) % Word) % n == e
  {
    ModOf(q, n, e);
  }

  lemma WrapAligned(c: nat, n: nat, k: nat)
    requires 0 < n <= Word && c < Word && k < n
    requires c + n <= Word || Word % n == 0
    ensures ((c + k) % Word) % n == (c + k) % n
  {
    if c + k >= Word {
      var q, e := Word / n, c + k - Word;
      assert (c + k) % Word == e && Word == q * n;
      ModOf(q, n, e);
    }
  }

  /** `n` calls in a row over an unchanged tier of `n` accounts serve each of them exactly once, if and only
      if the 64-bit cursor does not wrap on the way or `n` divides 2^64. */
  lemma RoundRobinIsFair(ids: set<string>, c: nat)
    requires ids != {} && |ids| <= Word && c < Word
    ensures var n := |ids|;
      var fair := c + n <= Word || Word % n == 0;
      && (AllDifferent(Turns(ids, c, n)) <==> fair)
      && (fair ==> forall x :: x in Turns(ids, c, n) <==> x in ids)
  {
    hide Turn, Turns;
    var n := |ids|;
    var t := Turns(ids, c, n);
    forall k | 0 <= k < n ensures t[k] == Turn(ids, (c + k) % Word) { TurnsAt(ids, c, n, k); }
    if c + n <= Word || Word % n == 0 {
      forall i, j | 0 <= i < j < n ensures t[i] != t[j] {
        SameTurn(ids, (c + i) % Word, (c + j) % Word);
        WrapAligned(c, n, i);
        WrapAligned(c, n, j);
        CloseResidues(c + i, c + j, n);
      }
      TurnsCover(ids, c, t);
    } else {
      var i, j := WrapCollides(c, n);
      SameTurn(ids, (c + i) % Word, (c + j) % Word);
      assert t[i] == t[j];
    }
  }

  lemma TurnInTier(ids: set<string>, c: nat)
    requires ids != {}
    ensures Turn(ids, c) in ids
  {
    SortedLists(ids);
    ListsSize(Sorted(ids), ids);
    assert Sorted(ids)[c % |ids|] in Sorted(ids);
  }

  lemma TurnsCover(ids: set<string>, c: nat, t: seq<string>)
    requires ids != {} && |t| == |ids| && AllDifferent(t)
    requires forall k | 0 <= k < |t| :: t[k] == Turn(ids, (c + k) % Word)
    ensures forall x :: x in t <==> x in ids
  {
    hide Turn;
    var all := set k | 0 <= k < |t| :: t[k];
    forall x | x in all ensures x in ids {
      var k :| 0 <= k < |t| && t[k] == x;
      TurnInTier(ids, (c + k) % Word);
    }
    DistinctSize(t, all);
    H.SubsetSize(all, ids);
  }

  /** Three accounts and a cursor one short of the wrap: the first account is served twice in three calls. */
  lemma WrapSkipsATurn(ids: set<string>)
    requires |ids| == 3
    ensures ids != {} && !AllDifferent(Turns(ids, Word - 1, 3))
  {
    assert ids != {};
    RoundRobinIsFair(ids, Word - 1);
  }

  lemma NoKey(es: seq<Sticky.Entry>, at: int, ttl: int)
    ensures Sticky.AfterGet(es, at, ttl, "") == es
  {
  }

  lemma BestIsSampled(
    cfg: Config, hot: Hot, sample: seq<HotMeta>, draws: nat -> real, id: string, cands: set<string>, k: nat)
    requires H.Sampled(hot, sample, cands, k) && BestScored(cfg, sample, draws, id)
    ensures id in cands
  {
  }

  lemma PicksSize(hot: Hot, ms: seq<HotMeta>, seen: set<string>)
    requires H.Picks(hot, ms, seen)
    ensures |ms| == |seen|
    ensures ms == [] <==> seen == {}
  {
  }
}