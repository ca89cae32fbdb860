/** The in-memory hot set: metadata by id, a dense id list, and the position map that makes it O(1). */
module HotIndex {
  import opened Text
  import opened Catalog

  const DefaultHotSize := 3000
  const ListPageSize := 500

  datatype Error = NotFound | InvalidInput | Closed | NoVictim
  datatype Outcome<T> = Done(value: T) | Failed(error: Error)

  /** A source of draws: whatever it answers to the s-th draw, the remainder is below n. */
  type Oracle = (nat, nat) -> nat

  function Draw(o: Oracle, s: nat, n: nat): (r: nat)
    requires n > 0
    ensures r < n
  {
    o(s, n) % n
  }

  // ---- the dense list and its inverse ----

  ghost predicate Indexed(ids: seq<string>, pos: map<string, nat>) {
    && |pos| == |ids|
    && (forall i | 0 <= i < |ids| :: ids[i] in pos && pos[ids[i]] == i)
    && (forall id | id in pos :: pos[id] < |ids| && ids[pos[id]] == id)
  }

  /** Take out position i by moving the last element into it. */
  function SwapDelete(ids: seq<string>, i: nat): seq<string>
    requires i < |ids|
  {
    ids[i := ids[|ids| - 1]][..|ids| - 1]
  }

  function Unplaced(ids: seq<string>, pos: map<string, nat>, id: string): map<string, nat>
    requires id in pos && pos[id] < |ids|
  {
    pos[ids[|ids| - 1] := pos[id]] - {id}
  }

  lemma SwapDeleteIndexed(ids: seq<string>, pos: map<string, nat>, id: string)
    requires Indexed(ids, pos) && id in pos
    ensures Indexed(SwapDelete(ids, pos[id]), Unplaced(ids, pos, id))
    ensures Unplaced(ids, pos, id).Keys == pos.Keys - {id}
  {
    var q := Unplaced(ids, pos, id);
    assert q.Keys == pos.Keys - {id};
    assert |q| == |q.Keys| && |pos.Keys| == |pos|;
  }

  lemma AppendIndexed(ids: seq<string>, pos: map<string, nat>, id: string)
    requires Indexed(ids, pos) && id !in pos
    ensures Indexed(ids + [id], pos[id := |ids|])
  {
    assert pos[id := |ids|].Keys == pos.Keys + {id};
    assert |pos[id := |ids|]| == |pos| + 1;
  }

  /** The dense list holds every indexed id once and nothing else. */
  lemma DenseList(ids: seq<string>, pos: map<string, nat>)
    requires Indexed(ids, pos)
    ensures forall i, j | 0 <= i < j < |ids| :: ids[i] != ids[j]
    ensures forall x :: x in ids <==> x in pos
  {
    forall x ensures x in ids <==> x in pos {
      if x in pos { assert ids[pos[x]] == x; }
    }
    forall i, j | 0 <= i < j < |ids| ensures ids[i] != ids[j] {
      assert pos[ids[i]] == i && pos[ids[j]] == j;
    }
  }

  lemma EmptyIndexed()
    ensures Indexed([], map[])
  {
  }

  lemma MovedOver(placed: set<string>, rest: set<string>, all: set<string>, id: string)
    requires placed + rest == all && placed !! rest && id in rest
    ensures (placed + {id}) + (rest - {id}) == all && (placed + {id}) !! (rest - {id})
  {
  }

  /** The entries of `hot` whose ids are listed. */
  function Only(hot: map<string, HotMeta>, ids: seq<string>): map<string, HotMeta> {
    map k | k in hot && k in ids :: hot[k]
  }

  lemma OnlyAll(hot: map<string, HotMeta>, ids: seq<string>, pos: map<string, nat>)
    requires Indexed(ids, pos) && pos.Keys == hot.Keys
    ensures hot == Only(hot, ids)
  {
    DenseList(ids, pos);
  }

  lemma OnlyLess(all: map<string, HotMeta>, ids: seq<string>, id: string)
    requires id !in ids
    ensures Only(all, ids + [id]) - {id} == Only(all, ids)
  {
  }

  lemma OnlyStep(all: map<string, HotMeta>, hot: map<string, HotMeta>, ids: seq<string>, pos: map<string, nat>)
    requires Indexed(ids, pos) && pos.Keys == hot.Keys && hot == Only(all, ids) && ids != []
    ensures var id := ids[|ids| - 1];
      && id in pos && pos[id] == |ids| - 1 && SwapDelete(ids, pos[id]) == ids[..|ids| - 1]
      && hot - {id} == Only(all, ids[..|ids| - 1])
  {
    hide Only;
    DenseList(ids, pos);
    var n := |ids| - 1;
    var id := ids[n];
    assert SwapDelete(ids, n) == ids[..n];
    assert ids == ids[..n] + [id] && id !in ids[..n];
    OnlyLess(all, ids[..n], id);
  }

  lemma DenseKeys(all: map<string, HotMeta>, hot: map<string, HotMeta>, ids: seq<string>, pos: map<string, nat>)
    requires Indexed(ids, pos) && pos.Keys == hot.Keys && hot == Only(all, ids)
    ensures forall k | k in hot :: k in all && hot[k] == all[k]
  {
  }

  ghost predicate Coherent(hot: map<string, HotMeta>, ids: seq<string>, pos: map<string, nat>, cap: int) {
    && Indexed(ids, pos) && pos.Keys == hot.Keys
    && "" !in hot && (forall k | k in hot :: hot[k].id == k)
    && |ids| <= cap && 0 < cap
  }

  lemma CoherentUpdate(hot: map<string, HotMeta>, ids: seq<string>, pos: map<string, nat>, cap: int, m: HotMeta)
    requires Coherent(hot, ids, pos, cap) && m.id in hot
    ensures Coherent(hot[m.id := m], ids, pos, cap)
  {
    hide Indexed;
    assert hot[m.id := m].Keys == hot.Keys;
  }

  lemma CoherentInsert(hot: map<string, HotMeta>, ids: seq<string>, pos: map<string, nat>, cap: int, m: HotMeta)
    requires Coherent(hot, ids, pos, cap) && m.id !in hot && m.id != "" && |ids| < cap
    ensures Indexed(ids, pos) && m.id !in pos
    ensures Coherent(hot[m.id := m], ids + [m.id], pos[m.id := |ids|], cap)
  {
    AppendIndexed(ids, pos, m.id);
    hide Indexed;
    assert hot[m.id := m].Keys == hot.Keys + {m.id};
    assert pos[m.id := |ids|].Keys == pos.Keys + {m.id};
  }

  lemma CoherentFacts(hot: map<string, HotMeta>, ids: seq<string>, pos: map<string, nat>, cap: int)
    requires Coherent(hot, ids, pos, cap)
    ensures |hot| == |ids| <= cap && 0 < cap && "" !in hot && forall k | k in hot :: hot[k].id == k
  {
    assert |hot| == |hot.Keys| && |pos| == |pos.Keys|;
  }

  function Without(hot: map<string, HotMeta>, gone: seq<string>): map<string, HotMeta> {
    map k | k in hot && k !in gone :: hot[k]
  }

  ghost function Place(ids: seq<string>, id: string): nat
    requires id in ids
    ensures Place(ids, id) < |ids| && ids[Place(ids, id)] == id
  {
    var i :| 0 <= i < |ids| && ids[i] == id;
    i
  }

  /** The list after `id` was deleted from it by swapping in the last id. */
  ghost function Unlisted(ids: seq<string>, id: string): seq<string> {
    if id in ids then SwapDelete(ids, Place(ids, id)) else ids
  }

  /** The list after the ids were deleted one by one. */
  ghost function Deleted(ids: seq<string>, gone: seq<string>): seq<string> {
    if gone == [] then ids
    else var n := |gone| - 1; Unlisted(Deleted(ids, gone[..n]), gone[n])
  }

  lemma DeletedNone(ids: seq<string>)
    ensures Deleted(ids, []) == ids
  {
  }

  lemma DeletedOne(ids: seq<string>, gone: seq<string>, id: string)
    ensures Deleted(ids, gone + [id]) == Unlisted(Deleted(ids, gone), id)
  {
    assert (gone + [id])[..|gone|] == gone;
  }

  lemma UnlistedIs(hot: map<string, HotMeta>, ids: seq<string>, pos: map<string, nat>, cap: int, id: string)
    requires Coherent(hot, ids, pos, cap)
    ensures id in hot ==> id in pos && pos[id] < |ids| && Unlisted(ids, id) == SwapDelete(ids, pos[id])
    ensures id !in hot ==> Unlisted(ids, id) == ids
  {
    hide SwapDelete;
    if id in hot { assert ids[pos[id]] == id; }
    if id in ids { var i := Place(ids, id); assert pos[ids[i]] == i; }
  }

  lemma WithoutNone(hot: map<string, HotMeta>)
    ensures Without(hot, []) == hot
  {
  }

  lemma WithoutOne(hot: map<string, HotMeta>, gone: seq<string>, id: string)
    ensures Without(hot, gone + [id]) == Without(hot, gone) - {id}
    ensures id !in Without(hot, gone) ==> Without(hot, gone + [id]) == Without(hot, gone)
  {
  }

  // ---- eligibility ----

  predicate EligibleWithInflightCap(m: HotMeta, now: int, maxInflight: int) {
    && m.enabled && (m.lifecycle == "" || m.lifecycle == LifecycleActive) && m.cooldownUntil <= now
    && !(maxInflight > 0 && m.inflight >= maxInflight)
  }

  function Candidates(hot: map<string, HotMeta>, now: int, maxInflight: int, exclude: set<string>): set<string> {
    set id | id in hot && id !in exclude && EligibleWithInflightCap(hot[id], now, maxInflight)
  }

  /** `picked` is the set `seen`, each once, with the metadata of the hot set. */
  ghost predicate Picks(hot: map<string, HotMeta>, picked: seq<HotMeta>, seen: set<string>) {
    && |picked| == |seen|
    && (forall i | 0 <= i < |picked| :: picked[i].id in seen && picked[i].id in hot && picked[i] == hot[picked[i].id])
    && (forall i, j | 0 <= i < j < |picked| :: picked[i].id != picked[j].id)
  }

  lemma PicksMore(hot: map<string, HotMeta>, picked: seq<HotMeta>, seen: set<string>, id: string)
    requires Picks(hot, picked, seen) && id !in seen && id in hot && hot[id].id == id
    ensures Picks(hot, picked + [hot[id]], seen + {id})
  {
  }

  lemma SubsetSize(a: set<string>, b: set<string>)
    requires a <= b
    ensures |a| <= |b|
    ensures |a| == |b| ==> a == b
  {
    var rest := b - a;
    assert b == a + rest;
    if |a| == |b| { assert rest == {}; }
  }

  // ---- the victim order ----

  predicate WorseVictim(a: HotMeta, b: HotMeta) {
    if a.priority != b.priority then a.priority < b.priority
    else if a.failureScore != b.failureScore then a.failureScore > b.failureScore
    else if a.inflight != b.inflight then a.inflight > b.inflight
    else Less(b.id, a.id)
  }

  /** Every other entry is kept in preference to `v`. */
  ghost predicate IsVictim(hot: map<string, HotMeta>, v: string) {
    v in hot && forall x | x in hot && x != v :: WorseVictim(hot[v], hot[x])
  }

  lemma WorseVictimTotal(a: HotMeta, b: HotMeta)
    requires a.id != b.id
    ensures WorseVictim(a, b) <==> !WorseVictim(b, a)
  {
    LessTotal(a.id, b.id);
    if Less(a.id, b.id) && Less(b.id, a.id) {
      LessTransitive(a.id, b.id, a.id);
      LessIrreflexive(a.id);
    }
  }

  lemma WorseVictimTransitive(a: HotMeta, b: HotMeta, c: HotMeta)
    requires WorseVictim(a, b) && WorseVictim(b, c)
    ensures WorseVictim(a, c)
  {
    if Less(b.id, a.id) && Less(c.id, b.id) { LessTransitive(c.id, b.id, a.id); }
  }

  /** The victim does not depend on the order in which the map is walked. */
  lemma OneVictim(hot: map<string, HotMeta>, v: string, w: string)
    requires (forall k | k in hot :: hot[k].id == k) && IsVictim(hot, v) && IsVictim(hot, w)
    ensures v == w
  {
    if v != w { WorseVictimTotal(hot[v], hot[w]); }
  }

  // ---- reloading ----

  function InflightOf(prev: map<string, HotMeta>, id: string): int {
    if id in prev then prev[id].inflight else 0
  }

  /** The listing of `rows` as the hot set takes it over: live in-flight counts are kept. */
  function Reloaded(t: Table, rows: seq<string>, prev: map<string, HotMeta>): (r: seq<HotMeta>)
    requires forall i | 0 <= i < |rows| :: rows[i] in t
    ensures |r| == |rows|
    ensures forall i | 0 <= i < |r| :: r[i] == Project(t[rows[i]]).(inflight := InflightOf(prev, rows[i]))
  {
    seq(|rows|, i requires 0 <= i < |rows| => Project(t[rows[i]]).(inflight := InflightOf(prev, rows[i])))
  }

  lemma UpdateSize(hot: map<string, HotMeta>, k: string, m: HotMeta)
    ensures |hot[k := m]| == if k in hot then |hot| else |hot| + 1
  {
    assert |hot[k := m]| == |hot[k := m].Keys| && |hot| == |hot.Keys|;
    assert hot[k := m].Keys == hot.Keys + {k};
    if k in hot { assert hot[k := m].Keys == hot.Keys; }
  }

  /** Later rows of one id replace earlier ones. */
  function ById(metas: seq<HotMeta>): (r: map<string, HotMeta>)
    ensures |r| <= |metas|
    ensures forall k | k in r :: r[k].id == k && r[k] in metas
    ensures forall i | 0 <= i < |metas| :: metas[i].id in r
  {
    if metas == [] then map[]
    else
      var n := |metas| - 1;
      var r := ById(metas[..n]);
      assert metas == metas[..n] + [metas[n]];
      UpdateSize(r, metas[n].id, metas[n]);
      r[metas[n].id := metas[n]]
  }

  /** A pre-built row as LoadMetas takes it over: a live count wins, else the row's own count stands. */
  function TakenOver(prev: map<string, HotMeta>, m: HotMeta): HotMeta {
    if InflightOf(prev, m.id) != 0 then m.(inflight := InflightOf(prev, m.id)) else m
  }

  function AllTakenOver(prev: map<string, HotMeta>, metas: seq<HotMeta>): (r: seq<HotMeta>)
    ensures |r| == |metas|
    ensures forall i | 0 <= i < |r| :: r[i] == TakenOver(prev, metas[i])
  {
    seq(|metas|, i requires 0 <= i < |metas| => TakenOver(prev, metas[i]))
  }

  function Least(a: int, b: int): int { if a <= b then a else b }

  /** The accounts a hot set of capacity `n` must hold: the first `n` of the listing. */
  function TopRows(t: Table, now: int, n: nat): (r: seq<string>)
    ensures |r| == Least(n, |ListableIds(t, now)|)
    ensures forall i | 0 <= i < |r| :: r[i] in t && Listable(t[r[i]], now)
  {
    var r := Ranked(t, ListableIds(t, now));
    if |r| <= n then r else r[..n]
  }

  ghost predicate DistinctIds(metas: seq<HotMeta>) {
    forall i, j | 0 <= i < j < |metas| :: metas[i].id != metas[j].id
  }

  lemma ById1(metas: seq<HotMeta>)
    ensures metas == [] ==> |ById(metas)| == 0
    ensures metas != [] ==> var n := |metas| - 1; ById(metas) == ById(metas[..n])[metas[n].id := metas[n]]
  {
  }

  lemma {:induction false} ByIdSize(metas: seq<HotMeta>)
    requires DistinctIds(metas)
    ensures |ById(metas)| == |metas|
    decreases |metas|
  {
    hide ById;
    ById1(metas);
    if metas != [] {
      var n := |metas| - 1;
      var r, m := ById(metas[..n]), metas[n];
      ByIdSize(metas[..n]);
      assert m.id !in r;
      UpdateSize(r, m.id, m);
    }
  }

  /** A reload holds exactly the given rows, with their own data and the counts they had. */
  lemma ReloadMeans(t: Table, rows: seq<string>, prev: map<string, HotMeta>)
    requires forall i | 0 <= i < |rows| :: rows[i] in t
    requires forall i, j | 0 <= i < j < |rows| :: rows[i] != rows[j]
    ensures var hot := ById(Reloaded(t, rows, prev));
      && |hot| == |rows|
      && (forall x :: x in hot <==> x in rows)
      && (forall x | x in hot :: x in t && hot[x] == Project(t[x]).(inflight := InflightOf(prev, x)))
  {
    hide ById;
    var metas := Reloaded(t, rows, prev);
    var hot := ById(metas);
    ByIdSize(metas);
    forall x ensures x in hot <==> x in rows {
      if x in hot {
        var i :| 0 <= i < |metas| && metas[i] == hot[x];
        assert rows[i] == x;
      }
      if x in rows {
        var i :| 0 <= i < |rows| && rows[i] == x;
        assert metas[i].id == x;
      }
    }
    forall x | x in hot ensures x in t && hot[x] == Project(t[x]).(inflight := InflightOf(prev, x)) {
      var i :| 0 <= i < |metas| && metas[i] == hot[x];
      assert rows[i] == x;
    }
  }

  lemma TopRowsDistinct(t: Table, now: int, n: nat)
    ensures forall i, j | 0 <= i < j < |TopRows(t, now, n)| :: TopRows(t, now, n)[i] != TopRows(t, now, n)[j]
  {
    hide Listable, Less;
    var r := Ranked(t, ListableIds(t, now));
    RankedRanks(t, ListableIds(t, now));
    forall i, j | 0 <= i < j < |r| ensures r[i] != r[j] {
      assert Before(t, r[i], r[j]);
      LessIrreflexive(r[i]);
    }
  }

  /** The rows taken are the best ones: nothing listable that is left out ranks before a row taken. */
  lemma TopRowsBest(t: Table, now: int, n: nat, x: string, y: string)
    requires x in ListableIds(t, now) && x !in TopRows(t, now, n) && y in TopRows(t, now, n)
    ensures y in t && Before(t, y, x)
  {
    hide Listable, Before, Ranked;
    var r := Ranked(t, ListableIds(t, now));
    RankedRanks(t, ListableIds(t, now));
    var i :| 0 <= i < |r| && r[i] == x;
    var j :| 0 <= j < |TopRows(t, now, n)| && TopRows(t, now, n)[j] == y;
    assert forall p | 0 <= p < |TopRows(t, now, n)| :: TopRows(t, now, n)[p] == r[p];
    assert j < |TopRows(t, now, n)| <= i;
  }

  lemma PlacedAt(ids: seq<string>, pos: map<string, nat>, id: string)
    requires Indexed(ids, pos) && id in pos
    ensures pos[id] < |ids| && |SwapDelete(ids, pos[id])| == |ids| - 1
  {
  }

  lemma DropCoherent(hot: map<string, HotMeta>, ids: seq<string>, pos: map<string, nat>, cap: int, id: string)
    requires Coherent(hot, ids, pos, cap)
    ensures Indexed(ids, pos) && (id in pos <==> id in hot)
    ensures id !in hot ==> hot - {id} == hot
    ensures id in hot ==> id != "" && pos[id] < |ids|
    ensures id in hot ==> Coherent(hot - {id}, SwapDelete(ids, pos[id]), Unplaced(ids, pos, id), cap)
  {
    hide Indexed, Unplaced, SwapDelete;
    if id in hot {
      SwapDeleteIndexed(ids, pos, id);
      PlacedAt(ids, pos, id);
      assert (hot - {id}).Keys == hot.Keys - {id};
    }
  }

  predicate HasBlank(metas: seq<HotMeta>) {
    exists i | 0 <= i < |metas| :: metas[i].id == ""
  }

  lemma PrefixMore(metas: seq<HotMeta>, i: nat)
    requires i < |metas|
    ensures metas[..i + 1] == metas[..i] + [metas[i]]
    ensures metas[i].id == "" ==> HasBlank(metas)
    ensures HasBlank(metas[..i + 1]) <==> HasBlank(metas[..i]) || metas[i].id == ""
  {
    assert metas[..i + 1][i] == metas[i];
    assert forall j | 0 <= j < i :: metas[..i + 1][j] == metas[..i][j];
  }

  lemma TakenOverIs(prev: map<string, HotMeta>, m: HotMeta)
    ensures TakenOver(prev, m)
         == if m.id in prev && prev[m.id].inflight != 0 then m.(inflight := prev[m.id].inflight) else m
  {
  }

  lemma TakenOverNone(prev: map<string, HotMeta>)
    ensures ById(AllTakenOver(prev, [])) == map[] && !HasBlank([])
  {
  }

  lemma TakenOverMore(prev: map<string, HotMeta>, metas: seq<HotMeta>, m: HotMeta)
    ensures var r := ById(AllTakenOver(prev, metas));
      ById(AllTakenOver(prev, metas + [m])) == r[m.id := TakenOver(prev, m)]
  {
    hide ById;
    var a := AllTakenOver(prev, metas + [m]);
    ById1(a);
    assert a[..|a| - 1] == AllTakenOver(prev, metas);
  }

  /** What Promote leaves: `demoted` is "" unless the set was full of other ids, and then it was the victim. */
  ghost predicate Promoted(
    was: map<string, HotMeta>, cap: int, meta: HotMeta, demoted: string, now: map<string, HotMeta>) {
    if meta.id in was then
      demoted == "" && now == was[meta.id := meta.(inflight := was[meta.id].inflight)]
    else
      && (if |was| < cap then demoted == "" else IsVictim(was, demoted))
      && now == (was - {demoted})[meta.id := meta.(inflight := if meta.inflight < 0 then 0 else meta.inflight)]
  }

  lemma PromotedOld(was: map<string, HotMeta>, cap: int, meta: HotMeta)
    requires meta.id in was
    ensures Promoted(was, cap, meta, "", was[meta.id := meta.(inflight := was[meta.id].inflight)])
  {
  }

  lemma PromotedNew(was: map<string, HotMeta>, cap: int, meta: HotMeta)
    requires meta.id !in was && "" !in was
    ensures var m := if meta.inflight < 0 then meta.(inflight := 0) else meta;
      && (|was| < cap ==> Promoted(was, cap, meta, "", was[meta.id := m]))
      && forall v | |was| >= cap && IsVictim(was, v) :: Promoted(was, cap, meta, v, (was - {v})[meta.id := m])
  {
    hide IsVictim;
    assert was - {""} == was;
  }

  lemma VictimFacts(hot: map<string, HotMeta>, v: string)
    requires "" !in hot && IsVictim(hot, v)
    ensures v != "" && v in hot && |hot - {v}| == |hot| - 1
  {
    assert (hot - {v}).Keys == hot.Keys - {v};
    assert |(hot - {v}).Keys| == |hot - {v}| && |hot| == |hot.Keys|;
  }

  lemma LoadedCoherent(hot: map<string, HotMeta>, ids: seq<string>, pos: map<string, nat>, cap: int)
    requires Indexed(ids, pos) && pos.Keys == hot.Keys && 0 < cap && |hot| <= cap
    requires "" !in hot && forall k | k in hot :: hot[k].id == k
    ensures Coherent(hot, ids, pos, cap)
  {
    assert |hot| == |hot.Keys| && |pos| == |pos.Keys|;
  }

  function Counted(hot: map<string, HotMeta>, id: string, d: int): map<string, HotMeta>
    requires id in hot
  {
    hot[id := hot[id].(inflight := hot[id].inflight + d)]
  }

  function Refusal(hot: map<string, HotMeta>, closed: bool, id: string): Option<Error> {
    if id == "" then Some(InvalidInput) else if closed then Some(Closed)
    else if id !in hot then Some(NotFound) else None
  }

  lemma CandidatesMore(hot: map<string, HotMeta>, now: int, max: int, rest: set<string>, id: string)
    requires id in rest && rest <= hot.Keys
    ensures id !in Candidates(hot, now, max, rest)
    ensures Candidates(hot, now, max, rest - {id})
         == Candidates(hot, now, max, rest) + (if EligibleWithInflightCap(hot[id], now, max) then {id} else {})
  {
  }

  method PickDemoteVictim(hot: map<string, HotMeta>) returns (bestId: string)
    requires forall k | k in hot :: hot[k].id == k
    ensures if hot == map[] then bestId == "" else IsVictim(hot, bestId)
  {
    hide WorseVictim;
    bestId := "";
    var found := false;
    var rest := hot.Keys;
    while rest != {}
      invariant rest <= hot.Keys && (found <==> rest != hot.Keys)
      invariant !found ==> bestId == ""
      invariant found ==> bestId in hot && bestId !in rest
      invariant found ==> forall x | x in hot && x !in rest && x != bestId :: WorseVictim(hot[bestId], hot[x])
      decreases rest
    {
      var id :| id in rest;
      if !found {
        found, bestId := true, id;
      } else {
        ghost var b := bestId;
        WorseVictimTotal(hot[id], hot[b]);
        if WorseVictim(hot[id], hot[bestId]) {
          forall x | x in hot && x !in rest && x != b ensures WorseVictim(hot[id], hot[x]) {
            WorseVictimTransitive(hot[id], hot[b], hot[x]);
          }
          bestId := id;
        }
      }
      rest := rest - {id};
    }
  }

  /** The page after the first `n` rows of the listing, as a slice of the listing. */
  lemma PageIsSlice(t: Table, now: int, n: nat, afterId: string)
    requires n <= |Ranked(t, ListableIds(t, now))|
    requires afterId == CursorAt(t, now, n)
    ensures Ranked(t, PageIds(t, now, afterId)) == Ranked(t, ListableIds(t, now))[n..]
  {
    hide Ranked, Listable;
    var r := Ranked(t, ListableIds(t, now));
    if n == 0 {
      assert r[n..] == r;
    } else {
      PageAfter(t, now, n);
      assert r[n - 1] in ListableIds(t, now);
    }
  }

  lemma TopIsPrefix(t: Table, now: int, n: nat, k: nat)
    requires n <= |Ranked(t, ListableIds(t, now))|
    requires k == n || (k >= n && n == |Ranked(t, ListableIds(t, now))|)
    ensures TopRows(t, now, k) == Ranked(t, ListableIds(t, now))[..n]
    ensures TopRows(t, now, n) == Ranked(t, ListableIds(t, now))[..n]
  {
    hide Ranked, Listable;
    var r := Ranked(t, ListableIds(t, now));
    assert r[..|r|] == r;
  }

  lemma ReloadedMore(t: Table, now: int, n: nat, prev: map<string, HotMeta>)
    requires n < |Ranked(t, ListableIds(t, now))|
    ensures var x := Ranked(t, ListableIds(t, now))[n];
      && x in t
      && Reloaded(t, TopRows(t, now, n + 1), prev)
      == Reloaded(t, TopRows(t, now, n), prev) + [Project(t[x]).(inflight := InflightOf(prev, x))]
  {
    hide Ranked, Listable;
    TopIsPrefix(t, now, n, n);
    TopIsPrefix(t, now, n + 1, n + 1);
    var r := Ranked(t, ListableIds(t, now));
    assert r[n] in ListableIds(t, now);
  }

  /** A reload holds the first `cap` of the listing and nothing else, each row with its data and its old count. */
  lemma LoadHoldsTop(t: Table, now: int, cap: nat, prev: map<string, HotMeta>)
    ensures var hot := ById(Reloaded(t, TopRows(t, now, cap), prev));
      && |hot| == Least(cap, |ListableIds(t, now)|)
      && hot.Keys <= ListableIds(t, now)
      && (forall x | x in hot :: hot[x] == Project(t[x]).(inflight := InflightOf(prev, x)))
      && (forall x, y | x in ListableIds(t, now) && x !in hot && y in hot :: Before(t, y, x))
  {
    hide ById, TopRows, Reloaded, Before, Listable, Ranked;
    var rows := TopRows(t, now, cap);
    TopRowsDistinct(t, now, cap);
    ReloadMeans(t, rows, prev);
    var hot := ById(Reloaded(t, rows, prev));
    forall x | x in hot ensures x in ListableIds(t, now) {
      var i :| 0 <= i < |rows| && rows[i] == x;
    }
    forall x, y | x in ListableIds(t, now) && x !in hot && y in hot ensures y in t && Before(t, y, x) {
      TopRowsBest(t, now, cap, x, y);
    }
  }

  // ---- sampling ----

  /** `k` entries, or all candidates when there are fewer: each a candidate, none twice. */
  ghost predicate Sampled(hot: map<string, HotMeta>, picked: seq<HotMeta>, cands: set<string>, k: nat) {
    && |picked| == Least(k, |cands|)
    && (forall i | 0 <= i < |picked| :: picked[i].id in cands && picked[i].id in hot && picked[i] == hot[picked[i].id])
    && (forall i, j | 0 <= i < j < |picked| :: picked[i].id != picked[j].id)
  }

  lemma SampledWhen(hot: map<string, HotMeta>, picked: seq<HotMeta>, seen: set<string>, cands: set<string>, k: nat)
    requires Picks(hot, picked, seen) && seen <= cands && |picked| <= k
    requires |picked| == k || seen == cands
    ensures Sampled(hot, picked, cands, k)
  {
    SubsetSize(seen, cands);
  }

  /** `place` is the inverse of the shuffled positions `a`. */
  ghost predicate Shuffled(a: seq<nat>, place: seq<nat>) {
    && |a| == |place|
    && (forall p | 0 <= p < |a| :: a[p] < |a| && place[a[p]] == p)
    && (forall v | 0 <= v < |a| :: place[v] < |a| && a[place[v]] == v)
  }

  function Swapped(a: seq<nat>, i: nat, j: nat): (r: seq<nat>)
    requires i < |a| && j < |a|
    ensures |r| == |a|
  {
    a[i := a[j]][j := a[i]]
  }

  lemma SwapShuffled(a: seq<nat>, place: seq<nat>, i: nat, j: nat) returns (next: seq<nat>)
    requires Shuffled(a, place) && i <= j < |a|
    ensures |next| == |place| == |a| && Shuffled(Swapped(a, i, j), next)
    ensures forall v | 0 <= v < |a| :: next[v] < i <==> place[v] < i
  {
    next := place[a[i] := j][a[j] := i];
  }

  /** The candidates among the first i shuffled positions. */
  ghost function Reached(cands: set<string>, pos: map<string, nat>, place: seq<nat>, i: nat): set<string> {
    set x | x in cands && x in pos && pos[x] < |place| && place[pos[x]] < i
  }

  lemma ReachedMore(cands: set<string>, ids: seq<string>, pos: map<string, nat>, a: seq<nat>, place: seq<nat>, i: nat)
    requires Indexed(ids, pos) && Shuffled(a, place) && |a| == |ids| && i < |a|
    ensures a[i] < |ids|
    ensures var id := ids[a[i]];
      && id !in Reached(cands, pos, place, i) && Reached(cands, pos, place, i) <= cands
      && Reached(cands, pos, place, i + 1) == Reached(cands, pos, place, i) + (if id in cands then {id} else {})
  {
    var id := ids[a[i]];
    assert pos[id] == a[i] && place[a[i]] == i;
    forall x | x in Reached(cands, pos, place, i + 1) && x !in Reached(cands, pos, place, i) ensures x == id {
      assert place[pos[x]] == i && a[i] == pos[x];
    }
  }

  /** One step of the shuffle: the position drawn comes to i, and its id is newly reached. */
  lemma ShuffleStep(
    cands: set<string>, ids: seq<string>, pos: map<string, nat>, a: seq<nat>, place: seq<nat>, i: nat, j: nat)
    returns (next: seq<nat>)
    requires Indexed(ids, pos) && Shuffled(a, place) && |a| == |ids| && i <= j < |a|
    ensures Shuffled(Swapped(a, i, j), next) && Swapped(a, i, j)[i] == a[j] < |ids|
    ensures ids[a[j]] !in Reached(cands, pos, place, i) && Reached(cands, pos, place, i) <= cands
    ensures Reached(cands, pos, next, i + 1)
         == Reached(cands, pos, place, i) + (if ids[a[j]] in cands then {ids[a[j]]} else {})
  {
    next := SwapShuffled(a, place, i, j);
    hide Indexed, Shuffled, Reached;
    ReachedKept(cands, pos, a, place, next, i);
    ReachedMore(cands, ids, pos, Swapped(a, i, j), next, i);
  }

  lemma ReachedEnds(cands: set<string>, ids: seq<string>, pos: map<string, nat>, a: seq<nat>, place: seq<nat>)
    requires Indexed(ids, pos) && Shuffled(a, place) && |a| == |ids| && cands <= pos.Keys
    ensures Reached(cands, pos, place, 0) == {}
    ensures Reached(cands, pos, place, |a|) == cands
    ensures forall i: nat :: Reached(cands, pos, place, i) <= cands
  {
  }

  lemma ReachedKept(cands: set<string>, pos: map<string, nat>, a: seq<nat>, place: seq<nat>, next: seq<nat>, i: nat)
    requires |next| == |place| == |a| && forall v | 0 <= v < |a| :: next[v] < i <==> place[v] < i
    ensures Reached(cands, pos, next, i) == Reached(cands, pos, place, i)
  {
  }

  lemma IdentityShuffled(a: seq<nat>)
    requires forall p | 0 <= p < |a| :: a[p] == p
    ensures Shuffled(a, a)
  {
  }

  lemma PicksNone(hot: map<string, HotMeta>)
    ensures Picks(hot, [], {})
  {
  }

  lemma CandidatesFit(
    hot: map<string, HotMeta>, ids: seq<string>, pos: map<string, nat>, cap: int, cands: set<string>)
    requires Coherent(hot, ids, pos, cap) && cands <= hot.Keys
    ensures |cands| <= |ids|
  {
    CoherentFacts(hot, ids, pos, cap);
    SubsetSize(cands, hot.Keys);
  }

  lemma SampledNone(hot: map<string, HotMeta>, cands: set<string>, k: nat)
    requires k == 0 || |cands| == 0
    ensures Sampled(hot, [], cands, k)
  {
  }

  lemma SampledClipped(
    hot: map<string, HotMeta>, picked: seq<HotMeta>, cands: set<string>, size: nat, k: nat, n: nat)
    requires |cands| <= n && size == Least(k, n) && Sampled(hot, picked, cands, size)
    ensures Sampled(hot, picked, cands, k)
  {
  }

  lemma ScanIsFull(ids: seq<string>, pos: map<string, nat>, cands: set<string>, seen: set<string>)
    requires Indexed(ids, pos) && cands <= pos.Keys && seen <= cands
    requires forall q | 0 <= q < |ids| :: ids[q] in cands ==> ids[q] in seen
    ensures seen == cands
  {
    forall x | x in cands ensures x in seen {
      assert ids[pos[x]] == x;
    }
  }

  /** The keys of a map as a dense list, in an order of the walk's own choosing. */
  method DenseOf(keys: set<string>) returns (ids: seq<string>, pos: map<string, nat>)
    ensures Indexed(ids, pos) && pos.Keys == keys
  {
    hide Indexed;
    ids, pos := [], map[];
    var rest := keys;
    EmptyIndexed();
    while rest != {}
      invariant Indexed(ids, pos) && pos.Keys + rest == keys && pos.Keys !! rest
      decreases rest
    {
      var id :| id in rest;
      AppendIndexed(ids, pos, id);
      MovedOver(pos.Keys, rest, keys, id);
      ghost var placed := pos.Keys;
      pos := pos[id := |ids|];
      assert pos.Keys == placed + {id};
      ids := ids + [id];
      rest := rest - {id};
    }
  }

  /** The rows with live counts taken over, by id; an empty id refuses them all. */
  method TakeRows(prev: map<string, HotMeta>, kept: seq<HotMeta>) returns (r: Outcome<map<string, HotMeta>>)
    ensures if HasBlank(kept) then r == Failed(InvalidInput)
      else r.Done? && r.value == ById(AllTakenOver(prev, kept)) && "" !in r.value && |r.value| <= |kept|
  {
    hide ById, AllTakenOver, TakenOver, HasBlank;
    var next: map<string, HotMeta> := map[];
    TakenOverNone(prev);
    for i := 0 to |kept|
      invariant !HasBlank(kept[..i])
      invariant next == ById(AllTakenOver(prev, kept[..i])) && "" !in next && |next| <= i
    {
      var m := kept[i];
      PrefixMore(kept, i);
      if m.id == "" { return Failed(InvalidInput); }
      TakenOverMore(prev, kept[..i], m);
      var row := m;
      if m.id in prev && prev[m.id].inflight != 0 { row := m.(inflight := prev[m.id].inflight); }
      TakenOverIs(prev, m);
      UpdateSize(next, m.id, row);
      next := next[m.id := row];
    }
    assert kept[..|kept|] == kept;
    r := Done(next);
  }

  class Index {
    var hot: map<string, HotMeta>
    var ids: seq<string>
    var pos: map<string, nat>
    var cap: int
    var maxInflight: int
    var closed: bool

    ghost predicate Valid()
      reads this
    {
      Coherent(hot, ids, pos, cap)
    }

    constructor (size: int, max: int)
      ensures Valid() && hot == map[] && ids == [] && !closed && maxInflight == max
      ensures cap == if size <= 0 then DefaultHotSize else size
    {
      hot, ids, pos, closed, maxInflight := map[], [], map[], false, max;
      cap := if size <= 0 then DefaultHotSize else size;
    }

    method AddLocked(id: string)
      requires Indexed(ids, pos) && id !in pos
      modifies this`ids, this`pos
      ensures Indexed(ids, pos)
      ensures ids == old(ids) + [id] && pos == old(pos)[id := |old(ids)|]
    {
      AppendIndexed(ids, pos, id);
      pos := pos[id := |ids|];
      ids := ids + [id];
    }

    /** Swap-delete: the last id moves into the hole; every other id keeps its place. */
    method RemoveLocked(id: string)
      requires Indexed(ids, pos)
      modifies this`ids, this`pos
      ensures Indexed(ids, pos) && pos.Keys == old(pos).Keys - {id}
      ensures id !in old(pos) ==> ids == old(ids) && pos == old(pos)
      ensures id in old(pos) ==> ids == SwapDelete(old(ids), old(pos)[id]) && pos == Unplaced(old(ids), old(pos), id)
    {
      if id !in pos { return; }
      SwapDeleteIndexed(ids, pos, id);
      var i := pos[id];
      var last := |ids| - 1;
      if i != last {
        var moved := ids[last];
        ids := ids[i := moved];
        pos := pos[moved := i];
      }
      ids := ids[..last];
      pos := pos - {id};
      assert ids == SwapDelete(old(ids), old(pos)[id]);
      assert pos == Unplaced(old(ids), old(pos), id);
    }

    /** Rows past the capacity are dropped; an empty id among the rows kept refuses the whole load. */
    method LoadMetas(metas: seq<HotMeta>) returns (r: Outcome<nat>)
      requires Valid()
      modifies this`hot, this`ids, this`pos
      ensures Valid()
      ensures var kept := metas[..Least(cap, |metas|)];
        if closed || HasBlank(kept)
        then r == Failed(if closed then Closed else InvalidInput) && hot == old(hot) && ids == old(ids)
        else hot == ById(AllTakenOver(old(hot), kept)) && r == Done(|hot|)
    {
      hide Indexed, Coherent, ById, AllTakenOver;
      if closed { return Failed(Closed); }
      CoherentFacts(hot, ids, pos, cap);
      var next := TakeRows(hot, metas[..Least(cap, |metas|)]);
      if next.Failed? { return Failed(next.error); }
      ReplaceAllLocked(next.value);
      LoadedCoherent(hot, ids, pos, cap);
      r := Done(|hot|);
    }

    /** Take an id out of the map and the dense list together. */
    method Drop(id: string)
      requires Valid()
      modifies this`hot, this`ids, this`pos
      ensures Valid()
      ensures hot == old(hot) - {id}
      ensures ids == if id in old(hot) then SwapDelete(old(ids), old(pos)[id]) else old(ids)
    {
      hide Indexed, Coherent, SwapDelete, Unplaced;
      DropCoherent(hot, ids, pos, cap, id);
      hot := hot - {id};
      RemoveLocked(id);
    }

    /** Put a row in or renew it; a full hot set gives up its worst entry for a new id. */
    method Promote(meta: HotMeta) returns (r: Outcome<string>)
      requires Valid()
      modifies this`hot, this`ids, this`pos
      ensures Valid()
      ensures r.Failed? <==> meta.id == "" || closed
      ensures r.Failed? ==> hot == old(hot) && ids == old(ids)
      ensures r.Done? ==> Promoted(old(hot), cap, meta, r.value, hot)
    {
      hide Indexed, Coherent, IsVictim, Promoted, SwapDelete, Unplaced;
      if meta.id == "" { return Failed(InvalidInput); }
      if closed { return Failed(Closed); }
      CoherentFacts(hot, ids, pos, cap);
      if meta.id in hot {
        CoherentUpdate(hot, ids, pos, cap, meta.(inflight := hot[meta.id].inflight));
        PromotedOld(hot, cap, meta);
        hot := hot[meta.id := meta.(inflight := hot[meta.id].inflight)];
        return Done("");
      }
      var demoted := "";
      PromotedNew(hot, cap, meta);
      if |hot| >= cap {
        var victim := PickDemoteVictim(hot);
        VictimFacts(hot, victim);
        if victim == "" { return Failed(NoVictim); }
        Drop(victim);
        demoted := victim;
      }
      CoherentFacts(hot, ids, pos, cap);
      Insert(if meta.inflight < 0 then meta.(inflight := 0) else meta);
      r := Done(demoted);
    }

    method Insert(m: HotMeta)
      requires Valid() && m.id !in hot && m.id != "" && |ids| < cap
      modifies this`hot, this`ids, this`pos
      ensures Valid() && hot == old(hot)[m.id := m] && ids == old(ids) + [m.id]
    {
      hide Indexed, Coherent;
      CoherentInsert(hot, ids, pos, cap, m);
      hot := hot[m.id := m];
      AddLocked(m.id);
    }

    method Demote(id: string) returns (e: Option<Error>)
      requires Valid()
      modifies this`hot, this`ids, this`pos
      ensures Valid()
      ensures e == if id == "" then Some(InvalidInput) else if closed then Some(Closed) else None
      ensures hot == if e == None then old(hot) - {id} else old(hot)
      ensures ids == if e == None && id in old(hot) then SwapDelete(old(ids), old(pos)[id]) else old(ids)
    {
      hide Coherent, SwapDelete;
      if id == "" { return Some(InvalidInput); }
      if closed { return Some(Closed); }
      Drop(id);
      e := None;
    }

    method DemoteMany(gone: seq<string>)
      requires Valid()
      modifies this`hot, this`ids, this`pos
      ensures Valid()
      ensures hot == if closed then old(hot) else Without(old(hot), gone)
      ensures ids == if closed then old(ids) else Deleted(old(ids), gone)
    {
      hide Coherent, SwapDelete, Without, Unlisted, Deleted;
      WithoutNone(hot);
      DeletedNone(ids);
      if gone == [] || closed { return; }
      for i := 0 to |gone|
        invariant Valid() && hot == Without(old(hot), gone[..i]) && ids == Deleted(old(ids), gone[..i])
      {
        assert gone[..i + 1] == gone[..i] + [gone[i]];
        CoherentFacts(hot, ids, pos, cap);
        WithoutOne(old(hot), gone[..i], gone[i]);
        DeletedOne(old(ids), gone[..i], gone[i]);
        UnlistedIs(hot, ids, pos, cap, gone[i]);
        if gone[i] == "" { continue; }
        Drop(gone[i]);
      }
      assert gone[..|gone|] == gone;
    }

    method AddInflight(id: string) returns (e: Option<Error>)
      requires Valid()
      modifies this`hot
      ensures Valid()
      ensures e == Refusal(old(hot), closed, id)
      ensures hot == if e == None then Counted(old(hot), id, 1) else old(hot)
    {
      hide Indexed;
      if id == "" { return Some(InvalidInput); }
      if closed { return Some(Closed); }
      if id !in hot { return Some(NotFound); }
      var m := hot[id];
      m := m.(inflight := m.inflight + 1);
      CoherentUpdate(hot, ids, pos, cap, m);
      hot := hot[id := m];
      e := None;
    }

    method SubInflight(id: string) returns (e: Option<Error>)
      requires Valid()
      modifies this`hot
      ensures Valid()
      ensures e == Refusal(old(hot), closed, id)
      ensures hot == if e == None && old(hot)[id].inflight > 0 then Counted(old(hot), id, -1) else old(hot)
    {
      hide Indexed;
      if id == "" { return Some(InvalidInput); }
      if closed { return Some(Closed); }
      if id !in hot { return Some(NotFound); }
      var m := hot[id];
      if m.inflight > 0 { m := m.(inflight := m.inflight - 1); }
      CoherentUpdate(hot, ids, pos, cap, m);
      assert m == hot[id] ==> hot[id := m] == hot;
      hot := hot[id := m];
      e := None;
    }

    method SetCooldown(id: string, until: int) returns (e: Option<Error>)
      requires Valid()
      modifies this`hot
      ensures Valid()
      ensures e == Refusal(old(hot), closed, id)
      ensures hot == if e == None then old(hot)[id := old(hot)[id].(cooldownUntil := until)] else old(hot)
    {
      hide Indexed;
      if id == "" { return Some(InvalidInput); }
      if closed { return Some(Closed); }
      if id !in hot { return Some(NotFound); }
      CoherentUpdate(hot, ids, pos, cap, hot[id].(cooldownUntil := until));
      hot := hot[id := hot[id].(cooldownUntil := until)];
      e := None;
    }

    /** Every eligible entry once, in the order the map is walked; `now` below 1 means the clock. */
    method Eligible(now: int, clock: int) returns (out: seq<HotMeta>)
      requires Valid()
      ensures Picks(hot, out, Candidates(hot, if now <= 0 then clock else now, maxInflight, {}))
    {
      hide Indexed, EligibleWithInflightCap;
      var at := if now <= 0 then clock else now;
      out := [];
      var rest := hot.Keys;
      ghost var seen: set<string> := {};
      while rest != {}
        invariant rest <= hot.Keys && Picks(hot, out, seen)
        invariant seen == Candidates(hot, at, maxInflight, rest)
        decreases rest
      {
        var id :| id in rest;
        CandidatesMore(hot, at, maxInflight, rest, id);
        if EligibleWithInflightCap(hot[id], at, maxInflight) {
          PicksMore(hot, out, seen, id);
          out := out + [hot[id]];
          seen := seen + {id};
        }
        rest := rest - {id};
      }
    }

    /** The map is walked in an order of its own choosing. */
    method ReplaceAllLocked(next: map<string, HotMeta>)
      modifies this`hot, this`ids, this`pos
      ensures hot == next && Indexed(ids, pos) && pos.Keys == next.Keys
    {
      hot := next;
      ids, pos := DenseOf(next.Keys);
    }

    /** Over-full hot sets lose the tail of the dense list. */
    method Resize(n: int)
      requires Valid()
      modifies this`hot, this`ids, this`pos, this`cap
      ensures Valid()
      ensures cap == if n <= 0 then DefaultHotSize else n
      ensures ids == if |old(ids)| <= cap then old(ids) else old(ids)[..cap]
      ensures hot == Only(old(hot), ids)
    {
      hide Indexed, Only, SwapDelete, Unplaced;
      cap := if n <= 0 then DefaultHotSize else n;
      ghost var hot0, ids0, size := hot, ids, cap;
      OnlyAll(hot, ids, pos);
      while |ids| > cap
        invariant Indexed(ids, pos) && pos.Keys == hot.Keys
        invariant 0 < cap == size && ids <= ids0 && (|ids| >= cap || ids == ids0)
        invariant hot == Only(hot0, ids)
        decreases |ids|
      {
        var id := ids[|ids| - 1];
        ghost var rest := ids[..|ids| - 1];
        OnlyStep(hot0, hot, ids, pos);
        RemoveLocked(id);
        assert ids == rest;
        hot := hot - {id};
      }
      DenseKeys(hot0, hot, ids, pos);
    }

    /** `k` different eligible ids outside `exclude`, or all there are; `now` below 1 means the clock. */
    method SampleEligible(now: int, k: int, exclude: set<string>, clock: int, intn: Oracle)
      returns (picked: seq<HotMeta>)
      requires Valid()
      ensures var at := if now <= 0 then clock else now;
        Sampled(hot, picked, Candidates(hot, at, maxInflight, exclude), if k < 0 then 0 else k)
    {
      hide Indexed, Sampled;
      var at := if now <= 0 then clock else now;
      ghost var cands := Candidates(hot, at, maxInflight, exclude);
      CandidatesFit(hot, ids, pos, cap, cands);
      if k <= 0 || ids == [] {
        SampledNone(hot, cands, if k < 0 then 0 else k);
        return [];
      }
      var n := |ids|;
      var size := if k > n then n else k;
      if n <= size * 4 {
        picked := SampleShuffled(at, size, exclude, intn);
      } else {
        picked := SampleProbing(at, size, exclude, intn);
      }
      SampledClipped(hot, picked, cands, size, k, n);
    }

    /** A partial Fisher-Yates shuffle of the positions, stopped as soon as `k` entries are found. */
    method SampleShuffled(at: int, k: nat, exclude: set<string>, intn: Oracle) returns (picked: seq<HotMeta>)
      requires Valid()
      ensures Sampled(hot, picked, Candidates(hot, at, maxInflight, exclude), k)
    {
      hide Indexed, Sampled, Picks, Shuffled, Reached, EligibleWithInflightCap;
      var n := |ids|;
      ghost var cands := Candidates(hot, at, maxInflight, exclude);
      var idxs := new nat[n](i => i);
      ghost var place: seq<nat> := idxs[..];
      IdentityShuffled(place);
      ReachedEnds(cands, ids, pos, idxs[..], place);
      PicksNone(hot);
      picked := [];
      var i := 0;
      while i < n && |picked| < k
        invariant i <= n && |picked| <= k
        invariant Shuffled(idxs[..], place)
        invariant Picks(hot, picked, Reached(cands, pos, place, i))
      {
        var j := i + Draw(intn, i, n - i);
        ghost var a, reached := idxs[..], Reached(cands, pos, place, i);
        place := ShuffleStep(cands, ids, pos, a, place, i, j);
        idxs[i], idxs[j] := idxs[j], idxs[i];
        assert idxs[..] == Swapped(a, i, j);
        var id := ids[idxs[i]];
        i := i + 1;
        if id in exclude { continue; }
        if id !in hot || !EligibleWithInflightCap(hot[id], at, maxInflight) { continue; }
        PicksMore(hot, picked, reached, id);
        picked := picked + [hot[id]];
      }
      ReachedEnds(cands, ids, pos, idxs[..], place);
      SampledWhen(hot, picked, Reached(cands, pos, place, i), cands, k);
    }

    /** Random probes first, then a scan of the dense list for what they missed. */
    method SampleProbing(at: int, k: nat, exclude: set<string>, intn: Oracle) returns (picked: seq<HotMeta>)
      requires Valid() && ids != []
      ensures Sampled(hot, picked, Candidates(hot, at, maxInflight, exclude), k)
    {
      hide Indexed, Sampled, Picks, EligibleWithInflightCap;
      ghost var cands := Candidates(hot, at, maxInflight, exclude);
      var maxAttempts := if k * 16 < 32 then 32 else k * 16;
      PicksNone(hot);
      picked := [];
      var seen: set<string> := {};
      var attempts := 0;
      while attempts < maxAttempts && |picked| < k
        invariant Picks(hot, picked, seen) && seen <= cands && |picked| <= k
      {
        var id := ids[Draw(intn, attempts, |ids|)];
        attempts := attempts + 1;
        if id in seen { continue; }
        if id in exclude { continue; }
        if id !in hot || !EligibleWithInflightCap(hot[id], at, maxInflight) { continue; }
        PicksMore(hot, picked, seen, id);
        seen := seen + {id};
        picked := picked + [hot[id]];
      }
      if |picked| < k {
        for p := 0 to |ids|
          invariant Picks(hot, picked, seen) && seen <= cands && |picked| < k
          invariant forall q | 0 <= q < p :: ids[q] in cands ==> ids[q] in seen
        {
          var id := ids[p];
          if id in seen { continue; }
          if id in exclude { continue; }
          if id !in hot || !EligibleWithInflightCap(hot[id], at, maxInflight) { continue; }
          PicksMore(hot, picked, seen, id);
          seen := seen + {id};
          picked := picked + [hot[id]];
          if |picked| >= k { break; }
        }
        if |picked| < k { ScanIsFull(ids, pos, cands, seen); }
      }
      SampledWhen(hot, picked, seen, cands, k);
    }

    /** Page through the listing until the hot set is full or the listing ends. */
    method LoadEligible(t: Table, now: int) returns (r: Outcome<nat>)
      requires Valid()
      modifies this`hot, this`ids, this`pos
      ensures Valid()
      ensures closed ==> r == Failed(Closed) && hot == old(hot) && ids == old(ids)
      ensures !closed ==> r == Done(|hot|) && hot == ById(Reloaded(t, TopRows(t, now, cap), old(hot)))
    {
      hide Indexed, Coherent, ById, Reloaded, TopRows, Ranked, Listable, InflightOf;
      if closed { return Failed(Closed); }
      LoadFits(t, now, ids, pos, cap, hot);
      var loaded := LoadPages(t, now, cap, LiveCounts(hot), hot);
      var next := MapById(loaded);
      ReplaceAllLocked(next);
      LoadedCoherent(hot, ids, pos, cap);
      r := Done(|next|);
    }
  }

  method MapById(loaded: seq<HotMeta>) returns (next: map<string, HotMeta>)
    ensures next == ById(loaded)
  {
    hide ById;
    next := map[];
    EmptyById();
    for i := 0 to |loaded|
      invariant next == ById(loaded[..i])
    {
      ById1(loaded[..i + 1]);
      assert loaded[..i + 1][..i] == loaded[..i];
      next := next[loaded[i].id := loaded[i]];
    }
    assert loaded[..|loaded|] == loaded;
  }

  lemma EmptyById()
    ensures ById([]) == map[]
  {
  }

  lemma LoadFits(t: Table, now: int, ids: seq<string>, pos: map<string, nat>, cap: int, prev: map<string, HotMeta>)
    requires Coherent(prev, ids, pos, cap)
    ensures 0 < cap
    ensures var hot := ById(Reloaded(t, TopRows(t, now, cap), prev));
      |hot| <= cap && "" !in hot && forall k | k in hot :: hot[k].id == k
  {
    hide ById, Reloaded, TopRows;
    LoadHoldsTop(t, now, cap, prev);
  }

  /** The non-zero live counts, set aside before the rows are replaced. */
  function LiveCounts(hot: map<string, HotMeta>): (r: map<string, int>)
    ensures forall id :: (if id in r then r[id] else 0) == InflightOf(hot, id)
  {
    map k | k in hot && hot[k].inflight != 0 :: hot[k].inflight
  }

  lemma PageAt(t: Table, now: int, n: nat, page: nat, afterId: string)
    requires n <= |Ranked(t, ListableIds(t, now))| && page > 0
    requires afterId == CursorAt(t, now, n)
    ensures ListEligible(t, now, page, afterId).Some?
    ensures BatchAt(t, Ranked(t, ListableIds(t, now)), n, page, ListEligible(t, now, page, afterId).value)
  {
    hide Ranked, Listable, Project;
    PageIsSlice(t, now, n, afterId);
  }

  /** `batch` is at most `page` rows of `r` from the n-th on. */
  ghost predicate BatchAt(t: Table, r: seq<string>, n: nat, page: nat, batch: seq<HotMeta>)
    requires n <= |r|
  {
    && |batch| == Least(page, |r| - n)
    && forall j | 0 <= j < |batch| :: r[n + j] in t && batch[j] == Project(t[r[n + j]])
  }

  method LoadPages(t: Table, now: int, capN: nat, prevInflight: map<string, int>, ghost prev: map<string, HotMeta>)
    returns (loaded: seq<HotMeta>)
    requires prevInflight == LiveCounts(prev)
    ensures loaded == Reloaded(t, TopRows(t, now, capN), prev)
  {
    hide Loading, Reloaded, TopRows, Ranked, Listable, ListEligible, LiveCounts, InflightOf, BatchAt, CursorAt;
    loaded := [];
    var afterId := "";
    LoadedNone(t, now, prev);
    while |loaded| < capN
      invariant |loaded| <= capN && Loading(t, now, loaded, prev, afterId)
    {
      var need := capN - |loaded|;
      var page := if need > ListPageSize * 4 then ListPageSize * 4 else need;
      ghost var n := |loaded|;
      NextPage(t, now, loaded, prev, afterId, page);
      var batch := ListEligible(t, now, page, afterId).value;
      LoadedAll(t, now, loaded, prev, afterId, page, capN);
      if batch == [] { break; }
      for i := 0 to |batch|
        invariant |loaded| == n + i && Loading(t, now, loaded, prev, afterId)
      {
        if |loaded| >= capN { break; }
        NextRow(t, now, loaded, prev, afterId, n, page, batch);
        var m := batch[i];
        m := m.(inflight := if m.id in prevInflight then prevInflight[m.id] else 0);
        loaded := loaded + [m];
        afterId := m.id;
      }
      LoadedAll(t, now, loaded, prev, afterId, page, capN);
      if |batch| < page { break; }
    }
    if |loaded| == capN { LoadedFull(t, now, loaded, prev, afterId); }
  }

  /** The rows loaded are the first of the listing, and the cursor stands on the last of them. */
  ghost predicate Loading(t: Table, now: int, loaded: seq<HotMeta>, prev: map<string, HotMeta>, afterId: string) {
    && |loaded| <= |Ranked(t, ListableIds(t, now))|
    && loaded == Reloaded(t, TopRows(t, now, |loaded|), prev)
    && afterId == CursorAt(t, now, |loaded|)
  }

  lemma NextPage(t: Table, now: int, loaded: seq<HotMeta>, prev: map<string, HotMeta>, afterId: string, page: nat)
    requires Loading(t, now, loaded, prev, afterId) && page > 0
    ensures |loaded| <= |Ranked(t, ListableIds(t, now))| && ListEligible(t, now, page, afterId).Some?
    ensures var batch := ListEligible(t, now, page, afterId).value;
      && |batch| == Least(page, |Ranked(t, ListableIds(t, now))| - |loaded|)
      && BatchAt(t, Ranked(t, ListableIds(t, now)), |loaded|, page, batch)
  {
    hide Ranked, Listable, ListEligible, Reloaded, TopRows;
    PageAt(t, now, |loaded|, page, afterId);
  }

  lemma NextRow(
    t: Table, now: int, loaded: seq<HotMeta>, prev: map<string, HotMeta>, afterId: string, n: nat, page: nat,
    batch: seq<HotMeta>)
    requires Loading(t, now, loaded, prev, afterId) && n <= |loaded| < n + |batch|
    requires n <= |Ranked(t, ListableIds(t, now))| && BatchAt(t, Ranked(t, ListableIds(t, now)), n, page, batch)
    ensures var m := batch[|loaded| - n];
      Loading(t, now, loaded + [m.(inflight := LiveCount(LiveCounts(prev), m.id))], prev, m.id)
  {
    hide Ranked, Listable, Reloaded, TopRows, LiveCounts;
    ReloadedMore(t, now, |loaded|, prev);
    LiveCountIs(prev, batch[|loaded| - n].id);
  }

  function LiveCount(live: map<string, int>, id: string): int {
    if id in live then live[id] else 0
  }

  lemma LiveCountIs(hot: map<string, HotMeta>, id: string)
    ensures LiveCount(LiveCounts(hot), id) == InflightOf(hot, id)
  {
  }

  /** With the listing used up, what is loaded is all a larger capacity would hold. */
  lemma LoadedAll(
    t: Table, now: int, loaded: seq<HotMeta>, prev: map<string, HotMeta>, afterId: string, page: nat, capN: nat)
    requires Loading(t, now, loaded, prev, afterId) && |loaded| <= capN
    ensures |loaded| == |Ranked(t, ListableIds(t, now))| ==> loaded == Reloaded(t, TopRows(t, now, capN), prev)
  {
    hide Ranked, Listable, Reloaded, TopRows;
    if |loaded| == |Ranked(t, ListableIds(t, now))| { TopIsPrefix(t, now, |loaded|, capN); }
  }

  lemma LoadedFull(t: Table, now: int, loaded: seq<HotMeta>, prev: map<string, HotMeta>, afterId: string)
    requires Loading(t, now, loaded, prev, afterId)
    ensures loaded == Reloaded(t, TopRows(t, now, |loaded|), prev)
  {
  }

  /** The paging cursor after n rows. */
  ghost function CursorAt(t: Table, now: int, n: nat): string
    requires n <= |Ranked(t, ListableIds(t, now))|
  {
    if n == 0 then "" else Ranked(t, ListableIds(t, now))[n - 1]
  }

  lemma LoadedNone(t: Table, now: int, prev: map<string, HotMeta>)
    ensures Loading(t, now, [], prev, "")
  {
  }
}
