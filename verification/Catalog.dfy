/** Account rows and the eligible listing that the hot index pages over. */
module Catalog {
  import opened Text

  const LifecycleActive := "active"
  const LifecycleQuarantined := "quarantined"

  datatype Account = Account(
    id: string, revision: int, priority: int, enabled: bool, manualDisabled: bool, lifecycle: string,
    accessToken: string, cooldownUntil: int, failureCount: int, successCount: int, consecutiveUnauthorized: int,
    lastError: string, probeOk: Option<bool>, proxyUrl: string, proxyMode: string)

  /** What the hot index keeps of an account: no secrets. */
  datatype HotMeta = HotMeta(
    id: string, priority: int, cooldownUntil: int, failureScore: int, inflight: int, enabled: bool, lifecycle: string,
    proxyUrl: string, proxyMode: string)

  /** The accounts table; the store refuses an empty id. */
  type Table = t: map<string, Account> | "" !in t && forall k | k in t :: t[k].id == k witness map[]

  predicate Listable(a: Account, now: int) {
    && a.enabled && !a.manualDisabled && a.lifecycle == LifecycleActive && a.cooldownUntil <= now
    && a.accessToken != "" && a.probeOk != Some(false)
  }

  function Project(a: Account): HotMeta {
    HotMeta(a.id, a.priority, a.cooldownUntil, a.failureCount, 0, a.enabled, a.lifecycle, a.proxyUrl, a.proxyMode)
  }

  function ListableIds(t: Table, now: int): set<string> {
    set k | k in t && Listable(t[k], now)
  }

  /** ORDER BY priority DESC, id ASC. */
  predicate Before(t: Table, a: string, b: string)
    requires a in t && b in t
  {
    t[a].priority > t[b].priority || (t[a].priority == t[b].priority && Less(a, b))
  }

  lemma BeforeTotal(t: Table, a: string, b: string)
    requires a in t && b in t && a != b
    ensures Before(t, a, b) || Before(t, b, a)
    ensures !(Before(t, a, b) && Before(t, b, a))
  {
    LessTotal(a, b);
    if Less(a, b) && Less(b, a) {
      LessTransitive(a, b, a);
      LessIrreflexive(a);
    }
  }

  lemma BeforeTransitive(t: Table, a: string, b: string, c: string)
    requires a in t && b in t && c in t && Before(t, a, b) && Before(t, b, c)
    ensures Before(t, a, c)
  {
    if t[a].priority == t[c].priority { LessTransitive(a, b, c); }
  }

  // ---- the listing ----

  /** `r` lists `ids` in order. */
  ghost predicate Ranks(t: Table, ids: set<string>, r: seq<string>)
    requires ids <= t.Keys
  {
    && (forall x :: x in r <==> x in ids)
    && (forall i, j | 0 <= i < j < |r| :: r[i] in t && r[j] in t && Before(t, r[i], r[j]))
  }

  predicate IsFirst(t: Table, ids: set<string>, m: string)
    requires ids <= t.Keys
  {
    m in ids && forall x | x in ids && x != m :: Before(t, m, x)
  }

  lemma {:induction false} FirstExists(t: Table, ids: set<string>)
    requires ids <= t.Keys && ids != {}
    ensures exists m :: IsFirst(t, ids, m)
    decreases ids
  {
    var k :| k in ids;
    var rest := ids - {k};
    if rest == {} {
      assert ids == {k};
      assert IsFirst(t, ids, k);
    } else {
      FirstExists(t, rest);
      var f :| IsFirst(t, rest, f);
      BeforeTotal(t, k, f);
      if Before(t, f, k) {
        assert IsFirst(t, ids, f);
      } else {
        forall x | x in ids && x != k ensures Before(t, k, x) {
          if x != f { BeforeTransitive(t, k, f, x); }
        }
        assert IsFirst(t, ids, k);
      }
    }
  }

  lemma FirstIsOne(t: Table, ids: set<string>)
    requires ids <= t.Keys
    ensures forall m, n | IsFirst(t, ids, m) && IsFirst(t, ids, n) :: m == n
  {
    forall m, n | IsFirst(t, ids, m) && IsFirst(t, ids, n) ensures m == n {
      if m != n { BeforeTotal(t, m, n); }
    }
  }

  /** The given accounts in listing order. */
  function Ranked(t: Table, ids: set<string>): (r: seq<string>)
    requires ids <= t.Keys
    ensures |r| == |ids|
    ensures forall i | 0 <= i < |r| :: r[i] in ids
    decreases ids
  {
    if ids == {} then []
    else
      FirstExists(t, ids);
      FirstIsOne(t, ids);
      var m :| m in ids && IsFirst(t, ids, m);
      [m] + Ranked(t, ids - {m})
  }

  lemma FirstThenRest(t: Table, ids: set<string>, m: string, rest: seq<string>)
    requires ids <= t.Keys && IsFirst(t, ids, m) && Ranks(t, ids - {m}, rest)
    ensures Ranks(t, ids, [m] + rest)
  {
    hide Before;
    var r := [m] + rest;
    forall x ensures x in r <==> x in ids { assert x in r <==> x == m || x in rest; }
    forall i, j | 0 <= i < j < |r| ensures r[i] in t && r[j] in t && Before(t, r[i], r[j]) {
      assert r[j] == rest[j - 1] && rest[j - 1] in rest;
      if i > 0 { assert r[i] == rest[i - 1]; }
    }
  }

  lemma {:induction false} RankedRanks(t: Table, ids: set<string>)
    requires ids <= t.Keys
    ensures Ranks(t, ids, Ranked(t, ids))
    decreases ids
  {
    hide Ranks, Before;
    if ids == {} {
      NothingRanks(t);
    } else {
      var m := Ranked(t, ids)[0];
      assert IsFirst(t, ids, m) && Ranked(t, ids) == [m] + Ranked(t, ids - {m});
      RankedRanks(t, ids - {m});
      FirstThenRest(t, ids, m, Ranked(t, ids - {m}));
    }
  }

  lemma NothingRanks(t: Table)
    ensures Ranks(t, {}, [])
  {
  }

  /** There is only one listing of a set of accounts. */
  lemma {:induction false} RanksUnique(t: Table, ids: set<string>, r: seq<string>)
    requires ids <= t.Keys && Ranks(t, ids, r)
    ensures r == Ranked(t, ids)
    decreases |r|
  {
    if r == [] {
      assert ids == {} by { assert forall x :: x !in ids; }
    } else {
      assert r[0] in ids;
      var q := Ranked(t, ids);
      RankedRanks(t, ids);
      HeadsAgree(t, ids, r, q);
      var m := r[0];
      assert Ranked(t, ids) == [m] + Ranked(t, ids - {m});
      TailRanks(t, ids, r);
      RanksUnique(t, ids - {m}, r[1..]);
    }
  }

  lemma HeadsAgree(t: Table, ids: set<string>, r: seq<string>, q: seq<string>)
    requires ids <= t.Keys && Ranks(t, ids, r) && Ranks(t, ids, q) && r != []
    ensures q != [] && q[0] == r[0]
  {
    assert r[0] in ids && r[0] in q;
    assert q[0] in ids && q[0] in r;
    if q[0] != r[0] {
      BeforeTotal(t, q[0], r[0]);
    }
  }

  lemma TailRanks(t: Table, ids: set<string>, r: seq<string>)
    requires ids <= t.Keys && Ranks(t, ids, r) && r != []
    ensures Ranks(t, ids - {r[0]}, r[1..])
  {
    forall x ensures x in r[1..] <==> x in ids - {r[0]} {
      assert x in r <==> x == r[0] || x in r[1..];
      if x in r[1..] {
        var i :| 0 <= i < |r[1..]| && r[1..][i] == x;
        assert Before(t, r[0], r[i + 1]);
        LessIrreflexive(x);
      }
    }
  }

  function LaterThan(t: Table, ids: set<string>, c: string): set<string>
    requires ids <= t.Keys && c in t
  {
    set k | k in ids && Before(t, c, k)
  }

  function Projected(t: Table, ids: seq<string>): (r: seq<HotMeta>)
    requires forall i | 0 <= i < |ids| :: ids[i] in t
    ensures |r| == |ids|
    ensures forall i | 0 <= i < |r| :: r[i] == Project(t[ids[i]])
  {
    seq(|ids|, i requires 0 <= i < |ids| => Project(t[ids[i]]))
  }

  /** The listable accounts after the cursor row; the cursor "" is before them all. */
  function PageIds(t: Table, now: int, afterId: string): (r: set<string>)
    ensures r <= t.Keys
  {
    if afterId == "" then ListableIds(t, now)
    else if afterId !in t then {}
    else LaterThan(t, ListableIds(t, now), afterId)
  }

  /** At most `limit` listable accounts after the cursor row, in listing order; no page for a limit below 1. */
  function ListEligible(t: Table, now: int, limit: int, afterId: string): Option<seq<HotMeta>> {
    if limit <= 0 then None
    else
      var r := Ranked(t, PageIds(t, now, afterId));
      Some(Projected(t, if |r| <= limit then r else r[..limit]))
  }

  /** In a listing, what comes after a row is what the order puts after it. */
  lemma SuffixRanks(t: Table, ids: set<string>, r: seq<string>, n: nat)
    requires ids <= t.Keys && Ranks(t, ids, r) && 0 < n <= |r|
    ensures r[n - 1] in t && Ranks(t, LaterThan(t, ids, r[n - 1]), r[n..])
  {
    hide Before;
    assert r[n - 1] in r && r[n - 1] in ids;
    var later := LaterThan(t, ids, r[n - 1]);
    forall x | x in r[n..] ensures x in later {
      var i :| 0 <= i < |r[n..]| && r[n..][i] == x;
      assert x == r[n + i] && Before(t, r[n - 1], r[n + i]);
      assert r[n + i] in r;
    }
    forall x | x in later ensures x in r[n..] {
      var i :| 0 <= i < |r| && r[i] == x;
      BeforeTotalAt(t, r, n - 1, i);
      assert r[n..][i - n] == x;
    }
  }

  /** Keyset paging: the rows after the n-th row of the listing are the rest of the listing. */
  lemma PageAfter(t: Table, now: int, n: nat)
    requires 0 < n <= |Ranked(t, ListableIds(t, now))|
    ensures var r := Ranked(t, ListableIds(t, now));
      && r[n - 1] in t
      && Ranked(t, LaterThan(t, ListableIds(t, now), r[n - 1])) == r[n..]
  {
    hide Ranks, Ranked, Before, Listable;
    var all := ListableIds(t, now);
    RankedRanks(t, all);
    SuffixRanks(t, all, Ranked(t, all), n);
    RanksUnique(t, LaterThan(t, all, Ranked(t, all)[n - 1]), Ranked(t, all)[n..]);
  }

  lemma BeforeTotalAt(t: Table, r: seq<string>, p: nat, i: nat)
    requires p < |r| && i < |r| && forall a, b | 0 <= a < b < |r| :: r[a] in t && r[b] in t && Before(t, r[a], r[b])
    requires r[p] in t && r[i] in t && Before(t, r[p], r[i])
    ensures p < i
  {
    if i < p {
      LessIrreflexive(r[i]);
      BeforeTransitive(t, r[i], r[p], r[i]);
    } else if i == p {
      LessIrreflexive(r[i]);
    }
  }

  // ---- row updates ----

  /** The row of `a` replaced by `a`. */
  function PutRow(t: Table, a: Account): (r: Table)
    requires a.id in t
    ensures r == t[a.id := a]
  {
    t[a.id := a]
  }

  /** Bind a proxy to the row of the trimmed id; a blank mode keeps the row's mode. */
  function SetProxy(t: Table, id: string, url: string, mode: string): Option<Table> {
    var key := TrimSpace(id);
    if key !in t then None
    else
      var a := t[key].(proxyUrl := TrimSpace(url), revision := t[key].revision + 1);
      Some(PutRow(t, if TrimSpace(mode) == "" then a else a.(proxyMode := TrimSpace(mode))))
  }

  /** The tables differ in proxy bindings and revisions at most. */
  predicate SameButProxy(t: Table, u: Table) {
    && u.Keys == t.Keys
    && forall k | k in t :: u[k] == t[k].(proxyUrl := u[k].proxyUrl, proxyMode := u[k].proxyMode, revision := u[k].revision)
  }

  lemma SetProxyOnly(t: Table, id: string, url: string, mode: string)
    ensures SetProxy(t, id, url, mode).Some? ==> SameButProxy(t, SetProxy(t, id, url, mode).value)
  {
    hide TrimSpace;
  }
}
