/** Leasing an account for one upstream call, with bounded failover, and settling the lease afterwards. */
module Lease {
  import opened Text
  import opened Catalog
  import H = HotIndex
  import Sel = Selection
  import Sticky = StickyLru

  datatype Config = Config(
    maxAttempts: int, cooldownBase: int, cooldownCap: int, cooldownExpMax: int, unauthorizedCooldown: int,
    paymentCooldown: int, forbiddenCooldown: int, jitterPct: int, unauthorizedQuarantineAfter: int,
    forbiddenQuarantineAfter: int, quarantineOnPayment: bool, clearStickyOn429: bool, clearStickyOn5xx: bool)

  datatype Lease = Lease(
    accountId: string, revision: nat, accessToken: string, proxyUrl: string, proxyMode: string, stickyKey: string,
    model: string, attempt: nat)

  datatype Error = NoAccount | Cancelled | CatalogMiss | NotUsable | ModelCooling | NeedsProxy | NotHot
  datatype Outcome = Leased(lease: Lease) | Failed(error: Error) {
    predicate NoneFound() { Failed? && error.NoAccount? }
  }

  /** What an upstream call came to; a status of 0 is a network failure. */
  datatype Result = Result(statusCode: nat, retryAfterNs: int, success: bool)

  /** Readings in unix seconds, one per attempt, and never before the first second. */
  type Clock = nat -> nat

  function At(clock: Clock, attempt: nat): (now: int)
    ensures now > 0
  {
    clock(attempt) + 1
  }

  /** The latest of the readings up to an attempt. */
  function Latest(clock: Clock, attempt: nat): (now: int)
    ensures attempt > 0 ==> now >= At(clock, attempt)
  {
    if attempt == 0 then 0
    else if At(clock, attempt) >= Latest(clock, attempt - 1) then At(clock, attempt)
    else Latest(clock, attempt - 1)
  }

  /** What the environment decides during one attempt. */
  datatype Draws = Draws(intn: H.Oracle, jitter: nat -> real, proxyFor: string -> Option<(string, string)>)

  // ---- who may be leased ----

  predicate AccountUsable(a: Account, now: int) {
    && a.enabled && !a.manualDisabled && (a.lifecycle == "" || a.lifecycle == LifecycleActive)
    && a.cooldownUntil <= now && a.accessToken != ""
  }

  type ModelCool = map<string, map<string, int>>

  predicate Cooling(mc: ModelCool, id: string, model: string, now: int) {
    id != "" && model != "" && id in mc && model in mc[id] && mc[id][model] > now
  }

  // ---- in-flight counts against outstanding leases ----

  /** An entry written over, with its live count. */
  function Renewed(h: Sel.Hot, meta: HotMeta): Sel.Hot
    requires meta.id in h
  {
    h[meta.id := meta.(inflight := h[meta.id].inflight)]
  }

  /** The same ids with the same counts, except `d` more for `id`. */
  ghost predicate Recounted(h: Sel.Hot, g: Sel.Hot, id: string, d: int) {
    g.Keys == h.Keys && forall k | k in h :: g[k].inflight == h[k].inflight + if k == id then d else 0
  }

  /** A lease handed out and not yet released. */
  datatype Loan = Loan(account: string, model: string)

  ghost function Accounts(loans: multiset<Loan>): multiset<string> {
    if loans == multiset{} then multiset{} else
      var l :| l in loans;
      multiset{l.account} + Accounts(loans - multiset{l})
  }

  lemma {:induction false} AccountsWithout(loans: multiset<Loan>, l: Loan)
    requires l in loans
    ensures Accounts(loans) == multiset{l.account} + Accounts(loans - multiset{l})
    decreases |loans|
  {
    var m :| m in loans && Accounts(loans) == multiset{m.account} + Accounts(loans - multiset{m});
    if m != l {
      var rest := loans - multiset{m} - multiset{l};
      assert rest == loans - multiset{l} - multiset{m};
      assert l in loans - multiset{m} && m in loans - multiset{l};
      hide Accounts;
      AccountsWithout(loans - multiset{m}, l);
      AccountsWithout(loans - multiset{l}, m);
      EitherFirst(m.account, l.account, Accounts(rest));
    }
  }

  lemma EitherFirst(a: string, b: string, c: multiset<string>)
    ensures multiset{a} + (multiset{b} + c) == multiset{b} + (multiset{a} + c)
  {
  }

  lemma AccountsWith(loans: multiset<Loan>, l: Loan)
    ensures Accounts(loans + multiset{l}) == Accounts(loans) + multiset{l.account}
  {
    AccountsWithout(loans + multiset{l}, l);
    assert loans + multiset{l} - multiset{l} == loans;
  }

  /** An account is lent out if and only if there is a loan on it. */
  lemma {:induction false} AccountsHas(loans: multiset<Loan>, id: string)
    ensures id in Accounts(loans) <==> exists l :: l in loans && l.account == id
    decreases |loans|
  {
    if loans != multiset{} {
      var m :| m in loans && Accounts(loans) == multiset{m.account} + Accounts(loans - multiset{m});
      AccountsHas(loans - multiset{m}, id);
      if l :| l in loans && l.account == id && m.account != id { assert l in loans - multiset{m}; }
      if l :| l in loans - multiset{m} && l.account == id { assert l in loans; }
    }
  }

  /** No hot account claims more calls in flight than there are leases on it. */
  ghost predicate Bounded(h: Sel.Hot, loans: multiset<Loan>) {
    forall k | k in h :: 0 <= h[k].inflight <= Accounts(loans)[k]
  }

  lemma RecountedTrans(h: Sel.Hot, g: Sel.Hot, f: Sel.Hot)
    requires exists z :: Recounted(h, g, z, 0)
    ensures forall i, d | Recounted(g, f, i, d) :: Recounted(h, f, i, d)
  {
  }

  // ---- counts of failures and cooling times ----

  /** One off, then half of the rest; never below zero. */
  function DecayFailureCount(fc: int): int {
    if fc <= 0 then 0 else (fc - 1) / 2
  }

  function Pow2(n: nat): nat {
    if n == 0 then 1 else 2 * Pow2(n - 1)
  }

  function Backoff(cfg: Config, failureCount: int): nat {
    var e := if failureCount < 1 then 0 else failureCount - 1;
    var top := if cfg.cooldownExpMax < 0 then 0 else cfg.cooldownExpMax;
    if e > top then top else e
  }

  const Word: int := 0x1_0000_0000_0000_0000

  /** A 64-bit signed integer holds what is left of x. */
  function Wrapped(x: int): int {
    var r := x % Word;
    if r >= Word / 2 then r - Word else r
  }

  function BaseCooldown(cfg: Config, code: nat, retryAfterNs: int, failureCount: int): int {
    var asked := retryAfterNs / 1_000_000_000;
    if code == 429 then
      if retryAfterNs > 0 then (if asked < 1 then 1 else asked)
      else Wrapped(cfg.cooldownBase * Pow2(Backoff(cfg, failureCount)))
    else if code == 403 then
      if retryAfterNs > 0 && asked > cfg.forbiddenCooldown then asked else cfg.forbiddenCooldown
    else if code == 401 then cfg.unauthorizedCooldown
    else if code == 402 then cfg.paymentCooldown
    else cfg.cooldownBase
  }

  function Clip(sec: int, cap: int): int {
    var s := if sec > cap then cap else sec;
    if s < 1 then 1 else s
  }

  /** Spread by up to `pct` per cent either way; `draw` picks the place in the spread. */
  function Spread(sec: int, pct: int, draw: nat): int {
    var delta := if pct > 0 then sec * pct / 100 else 0;
    if delta > 0 then
      var s := sec - delta + draw % (2 * delta + 1);
      if s < 1 then 1 else s
    else sec
  }

  function CooldownSeconds(cfg: Config, code: nat, retryAfterNs: int, failureCount: int, draw: nat): int {
    Spread(Clip(BaseCooldown(cfg, code, retryAfterNs, failureCount), cfg.cooldownCap), cfg.jitterPct, draw)
  }

  /** A cooling time is at least a second, and above the cap by the jitter at most; a cap below a second is a second. */
  lemma CooldownBounds(cfg: Config, code: nat, retryAfterNs: int, failureCount: int, draw: nat)
    requires 0 <= cfg.jitterPct <= 100
    ensures var sec := CooldownSeconds(cfg, code, retryAfterNs, failureCount, draw);
      var cap := if cfg.cooldownCap < 1 then 1 else cfg.cooldownCap;
      1 <= sec <= cap + cap * cfg.jitterPct / 100
  {
    hide BaseCooldown;
    var sec := Clip(BaseCooldown(cfg, code, retryAfterNs, failureCount), cfg.cooldownCap);
    DeltaGrows(sec, if cfg.cooldownCap < 1 then 1 else cfg.cooldownCap, cfg.jitterPct);
  }

  lemma DeltaGrows(a: int, b: int, pct: int)
    requires a <= b && 0 <= pct
    ensures a * pct / 100 <= b * pct / 100
  {
    assert (b - a) * pct >= 0;
  }

  // ---- what a release writes ----

  /** The end of the cooling time a release sets, if it sets one. */
  function Until(cfg: Config, t: Table, l: Lease, r: Result, now: int, draw: nat): int {
    if l.accountId in t
    then now + CooldownSeconds(cfg, r.statusCode, r.retryAfterNs, t[l.accountId].failureCount + 1, draw)
    else 0
  }

  lemma UntilIs(cfg: Config, t: Table, l: Lease, r: Result, now: int, draw: nat)
    requires l.accountId in t
    ensures Until(cfg, t, l, r, now, draw)
         == now + CooldownSeconds(cfg, r.statusCode, r.retryAfterNs, t[l.accountId].failureCount + 1, draw)
  {
  }

  function SuccessRow(a: Account): Account {
    a.(successCount := a.successCount + 1, failureCount := DecayFailureCount(a.failureCount),
       consecutiveUnauthorized := 0, lastError := "", revision := a.revision + 1)
  }

  predicate AppliesCooldown(code: nat) {
    code == 429 || code == 401 || code == 402 || code == 403
  }

  /** A rate limit on a named model cools that model only. */
  predicate ModelOnly(code: nat, model: string) {
    code == 429 && TrimSpace(model) != ""
  }

  predicate CoolsAccount(code: nat, model: string) {
    AppliesCooldown(code) && !ModelOnly(code, model)
  }

  /** How many refusals in a row a 403 is taken for: every earlier failure counts once the last was a 403. */
  function ForbiddenStreak(a: Account): int {
    if a.lastError != "forbidden" then 1 else if a.failureCount + 1 < 2 then 2 else a.failureCount + 1
  }

  predicate Quarantines(cfg: Config, a: Account, code: nat) {
    || (code == 401 && a.consecutiveUnauthorized + 1 >= cfg.unauthorizedQuarantineAfter)
    || (code == 403 && cfg.forbiddenQuarantineAfter > 0 && ForbiddenStreak(a) >= cfg.forbiddenQuarantineAfter)
    || (code == 402 && cfg.quarantineOnPayment)
  }

  predicate ClearsSticky(cfg: Config, code: nat) {
    if code == 401 || code == 402 || code == 403 then true
    else if code == 429 then cfg.clearStickyOn429
    else (code == 0 || code >= 500) && cfg.clearStickyOn5xx
  }

  function ErrorText(code: nat): string {
    if code == 0 then "upstream network error" else if code == 403 then "forbidden" else "upstream " + Decimal(code)
  }

  function FailureRow(cfg: Config, a: Account, code: nat, model: string, until: int): Account {
    var q := Quarantines(cfg, a, code);
    a.(failureCount := a.failureCount + 1, lastError := ErrorText(code), revision := a.revision + 1,
       consecutiveUnauthorized := a.consecutiveUnauthorized + if code == 401 then 1 else 0,
       cooldownUntil := if CoolsAccount(code, model) then until else a.cooldownUntil,
       enabled := a.enabled && !q, lifecycle := if q then LifecycleQuarantined else a.lifecycle)
  }

  /** The hot entry follows the row that was written. */
  function FailureMeta(cfg: Config, m: HotMeta, a: Account, code: nat, model: string, until: int): HotMeta {
    CooledMeta(cfg, m, a, code, model, until).(failureScore := a.failureCount + 1)
  }

  function CooledMeta(cfg: Config, m: HotMeta, a: Account, code: nat, model: string, until: int): HotMeta {
    var q := Quarantines(cfg, a, code);
    m.(cooldownUntil := if CoolsAccount(code, model) then until else m.cooldownUntil,
       enabled := m.enabled && !q, lifecycle := if q then LifecycleQuarantined else m.lifecycle)
  }

  /** One call less in flight on a hot account, and never below none. */
  function Returned(h: Sel.Hot, id: string): Sel.Hot {
    if id in h && h[id].inflight > 0 then H.Counted(h, id, -1) else h
  }

  function HotAfter(cfg: Config, h: Sel.Hot, t: Table, l: Lease, r: Result, until: int): Sel.Hot {
    var g, id := Returned(h, l.accountId), l.accountId;
    if id !in g || id !in t then g
    else if r.success then g[id := g[id].(failureScore := DecayFailureCount(t[id].failureCount))]
    else Refused(g, cfg, t[id], r.statusCode, l.model, until)
  }

  function Refused(h: Sel.Hot, cfg: Config, a: Account, code: nat, model: string, until: int): Sel.Hot
    requires a.id in h
  {
    h[a.id := FailureMeta(cfg, h[a.id], a, code, model, until)]
  }

  lemma RefusedTwice(h: Sel.Hot, cfg: Config, a: Account, code: nat, model: string, until: int)
    requires a.id in h
    ensures var m := CooledMeta(cfg, h[a.id], a, code, model, until);
      h[a.id := m][a.id := m.(failureScore := a.failureCount + 1)] == Refused(h, cfg, a, code, model, until)
  {
    hide CooledMeta;
  }

  function RowsAfter(cfg: Config, t: Table, l: Lease, r: Result, until: int): Table {
    if l.accountId !in t then t
    else PutRow(t, if r.success then SuccessRow(t[l.accountId])
                   else FailureRow(cfg, t[l.accountId], r.statusCode, l.model, until))
  }

  function CoolAfter(mc: ModelCool, t: Table, l: Lease, r: Result, until: int): ModelCool {
    if r.success || l.accountId !in t then mc else Modelled(mc, r.statusCode, l, until)
  }

  function Modelled(mc: ModelCool, code: nat, l: Lease, until: int): ModelCool {
    if ModelOnly(code, l.model) && until > 0 then SetModel(mc, l.accountId, l.model, until) else mc
  }

  function SetModel(mc: ModelCool, id: string, model: string, until: int): ModelCool {
    mc[id := (if id in mc then mc[id] else map[])[model := until]]
  }

  lemma SetModelCools(mc: ModelCool, id: string, model: string, until: int, now: int)
    requires id != "" && model != ""
    ensures Cooling(SetModel(mc, id, model, until), id, model, now) <==> now < until
    ensures forall i, m | !(i == id && m == model) ::
      Cooling(SetModel(mc, id, model, until), i, m, now) <==> Cooling(mc, i, m, now)
  {
  }

  function StickyAfter(cfg: Config, es: seq<Sticky.Entry>, l: Lease, r: Result): seq<Sticky.Entry> {
    if r.success || !ClearsSticky(cfg, r.statusCode) then es else Cleared(es, l)
  }

  /** No binding mentions the account any more, and the session's own binding is gone. */
  function Cleared(es: seq<Sticky.Entry>, l: Lease): seq<Sticky.Entry> {
    var d := Sticky.DropAccount(es, l.accountId);
    if l.stickyKey == "" then d else Sticky.Without(d, l.stickyKey)
  }

  lemma HotAfterRecounts(cfg: Config, h: Sel.Hot, t: Table, l: Lease, r: Result, until: int)
    ensures var id := l.accountId;
      Recounted(h, HotAfter(cfg, h, t, l, r, until), id, if id in h && h[id].inflight > 0 then -1 else 0)
  {
    hide Quarantines, CoolsAccount, DecayFailureCount;
  }

  /** The row after n refusals in a row. */
  function AfterForbidden(cfg: Config, a: Account, model: string, until: int, n: nat): Account
    decreases n
  {
    if n == 0 then a else FailureRow(cfg, AfterForbidden(cfg, a, model, until, n - 1), 403, model, until)
  }

  lemma {:induction false} AfterForbiddenRow(cfg: Config, a: Account, model: string, until: int, n: nat)
    ensures AfterForbidden(cfg, a, model, until, n).failureCount == a.failureCount + n
    ensures AfterForbidden(cfg, a, model, until, n).lastError == if n == 0 then a.lastError else "forbidden"
    decreases n
  {
    hide Quarantines;
    if n > 0 { AfterForbiddenRow(cfg, a, model, until, n - 1); }
  }

  /** The n-th 403 of a streak quarantines. */
  predicate NthQuarantines(cfg: Config, a: Account, model: string, until: int, n: nat)
    requires n > 0
  {
    Quarantines(cfg, AfterForbidden(cfg, a, model, until, n - 1), 403)
  }

  /** What counts as refusals in a row are all failures on record: the first 403 of a streak counts as one, every
      later one as the streak and all failures before it together. */
  lemma StreakCountsAllFailures(cfg: Config, a: Account, model: string, until: int, n: nat)
    requires a.lastError != "forbidden" && a.failureCount >= 0 && n > 0
    ensures NthQuarantines(cfg, a, model, until, n)
       <==> 0 < cfg.forbiddenQuarantineAfter <= if n == 1 then 1 else a.failureCount + n
  {
    AfterForbiddenRow(cfg, a, model, until, n - 1);
  }

  /** The documented meaning: the n-th 403 in a row quarantines when the threshold is n or less. It holds for every
      streak length and threshold if and only if no earlier failure is on record when the streak starts. */
  ghost predicate CountsTheStreak(cfg: Config, a: Account, model: string, until: int) {
    forall n: nat, threshold: int | n > 0 ::
      NthQuarantines(cfg.(forbiddenQuarantineAfter := threshold), a, model, until, n) <==> 0 < threshold <= n
  }

  lemma StreakIsCountedAlone(cfg: Config, a: Account, model: string, until: int)
    requires a.lastError != "forbidden" && a.failureCount >= 0
    ensures CountsTheStreak(cfg, a, model, until) <==> a.failureCount == 0
  {
    hide NthQuarantines;
    forall n: nat, threshold: int | n > 0
      ensures NthQuarantines(cfg.(forbiddenQuarantineAfter := threshold), a, model, until, n)
         <==> 0 < threshold <= if n == 1 then 1 else a.failureCount + n
    {
      StreakCountsAllFailures(cfg.(forbiddenQuarantineAfter := threshold), a, model, until, n);
    }
    if a.failureCount > 0 {
      assert NthQuarantines(cfg.(forbiddenQuarantineAfter := 3), a, model, until, 2);
    }
  }

  /** Eight server errors and then two 403s reach a threshold of ten. */
  lemma EightErrorsCount(cfg: Config, a: Account, model: string, until: int)
    requires a.failureCount == 0 && a.lastError == "" && cfg.forbiddenQuarantineAfter == 10
    ensures NthQuarantines(cfg, AfterErrors(cfg, a, model, until, 8), model, until, 2)
    ensures !NthQuarantines(cfg, a, model, until, 2)
  {
    AfterErrorsRow(cfg, a, model, until, 8);
    StreakCountsAllFailures(cfg, AfterErrors(cfg, a, model, until, 8), model, until, 2);
    StreakCountsAllFailures(cfg, a, model, until, 2);
  }

  function AfterErrors(cfg: Config, a: Account, model: string, until: int, n: nat): Account
    decreases n
  {
    if n == 0 then a else FailureRow(cfg, AfterErrors(cfg, a, model, until, n - 1), 500, model, until)
  }

  lemma {:induction false} AfterErrorsRow(cfg: Config, a: Account, model: string, until: int, n: nat)
    ensures AfterErrors(cfg, a, model, until, n).failureCount == a.failureCount + n
    ensures n > 0 ==> AfterErrors(cfg, a, model, until, n).lastError != "forbidden"
    decreases n
  {
    hide Quarantines, Decimal;
    if n > 0 {
      AfterErrorsRow(cfg, a, model, until, n - 1);
      assert ErrorText(500)[0] == 'u';
    }
  }

  /** The same models are cooling on the same accounts, now and at any later time. */
  ghost predicate SameCooling(mc: ModelCool, next: ModelCool, now: int) {
    forall i, m, t | t >= now :: Cooling(next, i, m, t) <==> Cooling(mc, i, m, t)
  }

  lemma ExpireModel(mc: ModelCool, id: string, model: string, now: int)
    requires id in mc && (model in mc[id] ==> mc[id][model] <= now)
    ensures var mm := mc[id] - {model};
      var next := if mm == map[] then mc - {id} else mc[id := mm];
      SameCooling(mc, next, now)
  {
    var mm := mc[id] - {model};
    var next := if mm == map[] then mc - {id} else mc[id := mm];
    forall i, m, t | t >= now ensures Cooling(next, i, m, t) <==> Cooling(mc, i, m, t) {
      if i == id && m in mc[id] && m != model { assert m in mm; }
    }
  }

  // ---- the proxy of an account ----

  predicate HasProxy(a: Account) {
    TrimSpace(a.proxyUrl) != ""
  }

  /** A proxy is assigned to an account without one when the pool offers one. */
  predicate Assigns(a: Account, given: Option<(string, string)>) {
    !HasProxy(a) && given.Some? && TrimSpace(given.value.0) != ""
  }

  /** The proxy a lease goes out with: the account's own, or the one assigned. */
  function ProxyOf(a: Account, given: Option<(string, string)>): (string, string) {
    if Assigns(a, given) then (TrimSpace(given.value.0), TrimSpace(given.value.1))
    else (TrimSpace(a.proxyUrl), TrimSpace(a.proxyMode))
  }

  /** An assigned proxy is written to the row of the trimmed id, if there is one. */
  function RowsBound(t: Table, a: Account, given: Option<(string, string)>): Table {
    if Assigns(a, given) then
      var bound := SetProxy(t, a.id, ProxyOf(a, given).0, ProxyOf(a, given).1);
      if bound.Some? then bound.value else t
    else t
  }

  /** A proxy written to a row goes to the hot entry of the account too. */
  function HotBound(h: Sel.Hot, t: Table, a: Account, given: Option<(string, string)>): Sel.Hot {
    if Assigns(a, given) && TrimSpace(a.id) in t && a.id in h
    then h[a.id := h[a.id].(proxyUrl := ProxyOf(a, given).0, proxyMode := ProxyOf(a, given).1)]
    else h
  }

  /** No id has white space around it. */
  ghost predicate TrimmedIds(t: Table) {
    forall k | k in t :: TrimSpace(k) == k
  }

  /** An account with a proxy is not touched at all. */
  ghost predicate KeepsProxies(t: Table, u: Table) {
    forall k | k in t && HasProxy(t[k]) :: k in u && u[k] == t[k]
  }

  /** Binding writes one row, that of the trimmed id. */
  lemma BoundRow(t: Table, a: Account, given: Option<(string, string)>, k: string)
    requires k in t
    ensures var u := RowsBound(t, a, given);
      && k in u && (u[k] != t[k] <==> Assigns(a, given) && k == TrimSpace(a.id))
  {
    hide TrimSpace;
  }

  /** With trimmed ids the assigned proxy is kept with the account, and no account that has one loses it. */
  lemma BoundKeeps(t: Table, a: Account, given: Option<(string, string)>)
    requires TrimmedIds(t) && a.id in t && t[a.id] == a
    ensures var u := RowsBound(t, a, given);
      KeepsProxies(t, u) && TrimmedIds(u) && a.id in u && ProxyOf(a, given).0 == TrimSpace(u[a.id].proxyUrl)
  {
    var u := RowsBound(t, a, given);
    BoundSame(t, a, given);
    BoundOwn(t, a, given);
    hide TrimSpace, RowsBound, ProxyOf;
    forall k | k in t && HasProxy(t[k]) ensures u[k] == t[k] {
      BoundRow(t, a, given, k);
    }
  }

  lemma BoundOwn(t: Table, a: Account, given: Option<(string, string)>)
    requires TrimSpace(a.id) == a.id && a.id in t && t[a.id] == a
    ensures ProxyOf(a, given).0 == TrimSpace(RowsBound(t, a, given)[a.id].proxyUrl)
  {
    hide TrimSpace;
    if Assigns(a, given) {
      TrimTwice(given.value.0);
      TrimTwice(TrimSpace(given.value.0));
    }
  }

  lemma BoundSame(t: Table, a: Account, given: Option<(string, string)>)
    ensures SameButProxy(t, RowsBound(t, a, given))
  {
    hide TrimSpace, SetProxy, SameButProxy;
    SameTable(t);
    SetProxyOnly(t, a.id, ProxyOf(a, given).0, ProxyOf(a, given).1);
  }

  lemma SpaceBefore()
    ensures TrimSpace(" a") == "a"
  {
    assert " a" == " " + "a";
    TrimAfterSpace("a");
    TrimSpaceKeeps("a");
  }

  /** An id with white space around it can take the proxy of another account away. */
  lemma UntrimmedIdRebinds(t: Table, given: Option<(string, string)>)
    requires "a" in t && " a" in t && HasProxy(t["a"]) && Assigns(t[" a"], given)
    ensures !KeepsProxies(t, RowsBound(t, t[" a"], given))
  {
    SpaceBefore();
    hide TrimSpace;
    BoundRow(t, t[" a"], given, "a");
  }

  /** What attempts may do to rows and model cooldowns up to a time: bind proxies, drop what has run out. */
  ghost predicate Attempted(t: Table, u: Table, mc: ModelCool, next: ModelCool, now: int) {
    && SameButProxy(t, u) && SameCooling(mc, next, now)
    && (TrimmedIds(t) ==> TrimmedIds(u) && KeepsProxies(t, u))
  }

  lemma AttemptedNothing(t: Table, mc: ModelCool, now: int)
    ensures Attempted(t, t, mc, mc, now)
  {
    SameTable(t);
  }

  lemma AttemptedCool(t: Table, mc: ModelCool, next: ModelCool, now: int)
    requires SameCooling(mc, next, now)
    ensures Attempted(t, t, mc, next, now)
  {
    SameTable(t);
  }

  lemma BoundAttempt(
    t: Table, a: Account, given: Option<(string, string)>, mc: ModelCool, next: ModelCool, now: int)
    requires a.id in t && t[a.id] == a && SameCooling(mc, next, now)
    ensures Attempted(t, RowsBound(t, a, given), mc, next, now)
    ensures TrimmedIds(RowsBound(t, a, given)) ==> ProxyOf(a, given).0 == TrimSpace(RowsBound(t, a, given)[a.id].proxyUrl)
  {
    hide RowsBound, ProxyOf, SameCooling;
    BoundSame(t, a, given);
    if TrimmedIds(t) { BoundKeeps(t, a, given); }
  }

  lemma AttemptedMore(
    t: Table, u: Table, v: Table, mc: ModelCool, mid: ModelCool, next: ModelCool, a: int, b: int, now: int)
    requires Attempted(t, u, mc, mid, a) && Attempted(u, v, mid, next, b) && a <= now && b <= now
    ensures Attempted(t, v, mc, next, now)
  {
    hide HasProxy, SameCooling, SameButProxy, KeepsProxies, TrimmedIds;
    SameButProxyTrans(t, u, v);
    SameCoolingTrans(mc, mid, next, a, b, now);
    if TrimmedIds(t) { KeepsProxiesTrans(t, u, v); }
  }

  lemma SameCoolingTrans(mc: ModelCool, mid: ModelCool, next: ModelCool, a: int, b: int, now: int)
    requires SameCooling(mc, mid, a) && SameCooling(mid, next, b) && a <= now && b <= now
    ensures SameCooling(mc, next, now)
  {
    hide Cooling;
    forall i, m, w | w >= now ensures Cooling(next, i, m, w) <==> Cooling(mc, i, m, w) {
      assert Cooling(next, i, m, w) <==> Cooling(mid, i, m, w);
    }
  }

  lemma KeepsProxiesTrans(t: Table, u: Table, v: Table)
    requires KeepsProxies(t, u) && KeepsProxies(u, v)
    ensures KeepsProxies(t, v)
  {
    hide HasProxy;
    forall k | k in t && HasProxy(t[k]) ensures k in v && v[k] == t[k] { assert u[k] == t[k]; }
  }

  /** The lease names the account and carries its secret and the caller's request. */
  ghost predicate Fits(l: Lease, a: Account, stickyKey: string, model: string, attempt: nat) {
    && l.accountId == a.id && l.accessToken == a.accessToken
    && l.stickyKey == stickyKey && l.model == model && l.attempt == attempt
  }

  /** Why an attempt on an account may fail; nothing else makes it fail. */
  ghost predicate Reason(
    e: Error, t: Table, hot: Sel.Hot, closed: bool, mc: ModelCool, id: string, model: string, now: int, require: bool) {
    match e
    case CatalogMiss => id !in t
    case NotUsable => id in t && !AccountUsable(t[id], now)
    case ModelCooling => Cooling(mc, id, model, now)
    case NeedsProxy => require && id in t && TrimSpace(t[id].proxyUrl) == ""
    case NotHot => closed || id !in hot || id == ""
    case _ => false
  }

  /** The budget is spent, or the caller has gone away by then. */
  ghost predicate GaveUp(e: Error, attempts: nat, max: int, cancelFrom: nat) {
    attempts == max || (e.Cancelled? && attempts + 1 >= cancelFrom)
  }

  datatype Desk = Desk(hot: Sel.Hot, rows: Table, cool: ModelCool, loans: multiset<Loan>)

  class Manager {
    const idx: H.Index
    const sel: Sel.Selector
    const cfg: Config
    const requireProxy: bool
    var accounts: Table
    var modelCool: ModelCool
    /** One element per lease handed out and not yet released. */
    ghost var leases: multiset<Loan>

    ghost predicate Valid()
      reads this, idx, sel, sel.sticky
    {
      && sel.idx == idx && idx.Valid() && sel.Valid() && cfg.maxAttempts >= 1
      && (!idx.closed ==> Bounded(idx.hot, leases))
    }

    constructor (index: H.Index, selector: Sel.Selector, config: Config, rows: Table, require: bool)
      requires index.Valid() && selector.Valid() && selector.idx == index && config.maxAttempts >= 1
      requires forall k | k in index.hot :: index.hot[k].inflight == 0
      ensures Valid() && idx == index && sel == selector && cfg == config && leases == multiset{}
      ensures accounts == rows && modelCool == map[] && requireProxy == require
    {
      idx, sel, cfg, requireProxy := index, selector, config, require;
      accounts, modelCool, leases := rows, map[], multiset{};
    }

    /** Whether the model is cooling on the account; an entry that has run out is dropped. */
    method ModelCooldownActive(id: string, model: string, now: int) returns (active: bool)
      requires now >= 0
      modifies this`modelCool
      ensures active == Cooling(old(modelCool), id, model, now)
      ensures SameCooling(old(modelCool), modelCool, now)
    {
      if id == "" || model == "" || id !in modelCool { return false; }
      var mm := modelCool[id];
      var until := if model in mm then mm[model] else 0;
      if until <= now {
        ExpireModel(modelCool, id, model, now);
        mm := mm - {model};
        modelCool := if mm == map[] then modelCool - {id} else modelCool[id := mm];
        return false;
      }
      return true;
    }

    /** The proxy of the account, or a newly assigned one, which is then kept with the account. */
    method BindProxy(acct: Account, proxyFor: string -> Option<(string, string)>) returns (url: string, mode: string)
      requires Valid()
      modifies this`accounts, idx`hot, idx`ids, idx`pos
      ensures Valid() && (url, mode) == ProxyOf(acct, proxyFor(acct.id))
      ensures accounts == RowsBound(old(accounts), acct, proxyFor(acct.id))
      ensures idx.hot == if idx.closed then old(idx.hot)
        else HotBound(old(idx.hot), old(accounts), acct, proxyFor(acct.id))
    {
      hide H.Coherent, Sticky.Filed, Sticky.Reverses, Sticky.Apart, TrimSpace, PutRow;
      url, mode := TrimSpace(acct.proxyUrl), TrimSpace(acct.proxyMode);
      if url != "" { return; }
      var given := proxyFor(acct.id);
      if given.None? || TrimSpace(given.value.0) == "" { return; }
      url, mode := TrimSpace(given.value.0), TrimSpace(given.value.1);
      var bound := SetProxy(accounts, acct.id, url, mode);
      if bound.None? { return; }
      accounts := bound.value;
      if acct.id in idx.hot { Rebind(acct.id, url, mode); }
    }

    method Rebind(id: string, url: string, mode: string)
      requires Valid() && id in idx.hot
      modifies idx`hot, idx`ids, idx`pos
      ensures Valid()
      ensures idx.hot == if idx.closed then old(idx.hot)
        else old(idx.hot)[id := old(idx.hot)[id].(proxyUrl := url, proxyMode := mode)]
    {
      hide H.Indexed, Sticky.Filed, Sticky.Reverses, Sticky.Apart, Bounded;
      Renew(idx.hot[id].(proxyUrl := url, proxyMode := mode));
    }

    /** The strategy has nothing to choose from outside `tried`. */
    ghost predicate Exhausted(at: int, tried: set<string>)
      reads idx`hot, idx`maxInflight
    {
      Sel.Reachable(sel.cfg.strategy, idx.hot, H.Candidates(idx.hot, at, idx.maxInflight, tried)) == {}
    }

    /** At the time of the next attempt there is nothing left but what was tried. */
    ghost predicate NoneLeft(clock: Clock, tried: seq<string>)
      reads idx`hot, idx`maxInflight
    {
      Exhausted(At(clock, |tried| + 1), Elements(tried))
    }

    /** Pick an account not tried yet. */
    method PickUntried(stickyKey: string, tried: set<string>, now: int, draws: Draws) returns (id: string, ok: bool)
      requires Valid() && now > 0
      modifies sel`rrCursor, sel.sticky
      ensures Valid()
      ensures ok ==> id in sel.Allowed(now, tried)
      ensures !ok ==> Exhausted(now, tried)
    {
      hide H.Coherent, Sel.Reachable, Sel.Bound, Sel.Rebound, Sel.Turn, Sel.Tier, Bounded;
      ReachableAllowed(sel.cfg.strategy, idx.hot, sel.Allowed(now, tried));
      id, ok := sel.PickExcluding(now, stickyKey, tried, now, draws.intn, draws.jitter);
    }

    /** Check the row of a picked account, bind its proxy, and count the call. */
    method LeasePicked(id: string, stickyKey: string, model: string, attempt: nat, now: int, draws: Draws)
      returns (r: Outcome)
      requires Valid() && now > 0
      modifies this`accounts, this`modelCool, this`leases, idx`hot, idx`ids, idx`pos
      ensures Valid() && !r.NoneFound()
      ensures Attempted(old(accounts), accounts, old(modelCool), modelCool, now)
      ensures Recounted(old(idx.hot), idx.hot, id, if r.Leased? then 1 else 0)
      ensures leases == if r.Leased? then old(leases) + multiset{Loan(id, model)} else old(leases)
      ensures r.Leased? ==> id in accounts && Fits(r.lease, accounts[id], stickyKey, model, attempt)
      ensures r.Leased? ==> AccountUsable(accounts[id], now) && !Cooling(modelCool, id, model, now)
      ensures r.Leased? && r.lease.proxyUrl == "" ==> !requireProxy
      ensures r.Leased? && TrimmedIds(accounts) ==> r.lease.proxyUrl == TrimSpace(accounts[id].proxyUrl)
      ensures r.Failed? ==>
        Reason(r.error, old(accounts), old(idx.hot), idx.closed, old(modelCool), id, model, now, requireProxy)
    {
      hide H.Coherent, Sticky.Filed, Sticky.Reverses, Sticky.Apart, Attempted, Cooling, SameCooling, Recounted,
        Bounded, AccountUsable, Fits, TrimmedIds, RowsBound, ProxyOf;
      AttemptedNothing(accounts, modelCool, now);
      SameCounts(idx.hot, idx.hot, id);
      NoModel(modelCool, id, now);
      if id !in accounts { return Failed(CatalogMiss); }
      var acct := accounts[id];
      if !AccountUsable(acct, now) { return Failed(NotUsable); }
      if model != "" {
        var active := ModelCooldownActive(id, model, now);
        CoolingKept(old(modelCool), modelCool, id, model, now);
        AttemptedCool(accounts, old(modelCool), modelCool, now);
        if active { return Failed(ModelCooling); }
      }
      BoundAttempt(accounts, acct, draws.proxyFor(id), old(modelCool), modelCool, now);
      r := BindAndCount(acct, stickyKey, model, attempt, now, draws);
    }

    method CountCall(id: string, model: string) returns (counted: bool)
      requires Valid()
      modifies this`leases, idx`hot
      ensures Valid() && Recounted(old(idx.hot), idx.hot, id, if counted then 1 else 0)
      ensures leases == if counted then old(leases) + multiset{Loan(id, model)} else old(leases)
      ensures counted <==> !idx.closed && id in old(idx.hot) && id != ""
    {
      hide H.Coherent, Sticky.Filed, Sticky.Reverses, Sticky.Apart, Recounted, Bounded, H.Counted;
      SameCounts(idx.hot, idx.hot, id);
      var e := idx.AddInflight(id);
      if e != None { return false; }
      CountedOnce(old(idx.hot), old(idx.hot), id, model, leases);
      leases := leases + multiset{Loan(id, model)};
      return true;
    }

    method BindAndCount(acct: Account, stickyKey: string, model: string, attempt: nat, now: int, draws: Draws)
      returns (r: Outcome)
      requires Valid() && acct.id in accounts && accounts[acct.id] == acct
      modifies this`accounts, this`leases, idx`hot, idx`ids, idx`pos
      ensures Valid() && !r.NoneFound()
      ensures accounts == RowsBound(old(accounts), acct, draws.proxyFor(acct.id))
      ensures Recounted(old(idx.hot), idx.hot, acct.id, if r.Leased? then 1 else 0)
      ensures leases == if r.Leased? then old(leases) + multiset{Loan(acct.id, model)} else old(leases)
      ensures acct.id in accounts && (AccountUsable(accounts[acct.id], now) <==> AccountUsable(acct, now))
      ensures r.Leased? ==> Fits(r.lease, accounts[acct.id], stickyKey, model, attempt)
      ensures r.Leased? ==> (r.lease.proxyUrl, r.lease.proxyMode) == ProxyOf(acct, draws.proxyFor(acct.id))
      ensures r.Leased? && r.lease.proxyUrl == "" ==> !requireProxy
      ensures r.Failed? ==>
        || (r.error.NeedsProxy? && requireProxy && TrimSpace(acct.proxyUrl) == "")
        || (r.error.NotHot? && (idx.closed || acct.id !in old(idx.hot) || acct.id == ""))
    {
      hide H.Coherent, Sticky.Filed, Sticky.Reverses, Sticky.Apart, TrimSpace, Recounted, Bounded, ProxyOf, RowsBound,
        HotBound, H.Counted, AccountUsable;
      var id := acct.id;
      BoundProxies(accounts, idx.hot, acct, draws.proxyFor(id), now);
      ProxyOfBlank(acct, draws.proxyFor(id));
      var proxyUrl, proxyMode := BindProxy(acct, draws.proxyFor);
      if proxyUrl == "" && requireProxy { return Failed(NeedsProxy); }
      ghost var before := idx.hot;
      var counted := CountCall(id, model);
      RecountedTrans(old(idx.hot), before, idx.hot);
      if !counted { return Failed(NotHot); }
      var rev := if acct.revision < 0 then 0 else acct.revision;
      r := Leased(Lease(id, rev, acct.accessToken, proxyUrl, proxyMode, stickyKey, model, attempt));
    }

    /** One attempt: pick an account not tried yet, and lease it if it may be leased. */
    method AcquireOnce(
      stickyKey: string, model: string, tried: set<string>, attempt: nat, now: int, draws: Draws)
      returns (r: Outcome, id: string)
      requires Valid() && now > 0
      modifies this`accounts, this`modelCool, this`leases, idx`hot, idx`ids, idx`pos, sel`rrCursor, sel.sticky
      ensures Valid()
      ensures r.NoneFound() ==>
        id == "" && idx.hot == old(idx.hot) && Exhausted(now, tried)
      ensures !r.NoneFound() ==> id in old(sel.Allowed(now, tried)) && id !in tried
      ensures Attempted(old(accounts), accounts, old(modelCool), modelCool, now)
      ensures Recounted(old(idx.hot), idx.hot, id, if r.Leased? then 1 else 0)
      ensures leases == if r.Leased? then old(leases) + multiset{Loan(id, model)} else old(leases)
      ensures r.Leased? ==> id in accounts && Fits(r.lease, accounts[id], stickyKey, model, attempt)
      ensures r.Leased? ==> AccountUsable(accounts[id], now) && !Cooling(modelCool, id, model, now)
      ensures r.Leased? && r.lease.proxyUrl == "" ==> !requireProxy
      ensures r.Leased? && TrimmedIds(accounts) ==> r.lease.proxyUrl == TrimSpace(accounts[id].proxyUrl)
      ensures r.Leased? ==> UnderCap(idx.hot, id, idx.maxInflight)
      ensures r.Failed? && !r.NoneFound() ==>
        Reason(r.error, old(accounts), old(idx.hot), idx.closed, old(modelCool), id, model, now, requireProxy)
    {
      hide H.Indexed, Attempted, Exhausted, Cooling, Recounted, UnderCap, Reason, AccountUsable, TrimmedIds,
        H.EligibleWithInflightCap;
      AttemptedNothing(accounts, modelCool, now);
      SameCounts(idx.hot, idx.hot, "");
      var ok;
      id, ok := PickUntried(stickyKey, tried, now, draws);
      if !ok || id == "" { return Failed(NoAccount), ""; }
      r := LeasePicked(id, stickyKey, model, attempt, now, draws);
      CapKept(old(idx.hot), idx.hot, now, idx.maxInflight, tried, id);
    }

    /** Attempts until one account is leased, no account is left to try, or the budget is spent; the caller is gone
        from attempt `cancelFrom` on. */
    method Acquire(stickyKey: string, model: string, clock: Clock, cancelFrom: nat, draws: nat -> Draws)
      returns (r: Outcome, ghost tried: seq<string>)
      requires Valid()
      modifies this`accounts, this`modelCool, this`leases, idx`hot, idx`ids, idx`pos, sel`rrCursor, sel.sticky
      ensures Valid()
      ensures Ends(r, old(Standing()), tried, stickyKey, model, clock, cancelFrom)
    {
      BudgetIsSpendable();
      hide Valid, Begun, NoneLeft, Elements, Acquired, Ends;
      tried := [];
      ghost var from := Standing();
      var seen: set<string> := {};
      var last := NoAccount;
      Begin(clock);
      var attempt := 1;
      while attempt <= cfg.maxAttempts
        invariant 1 <= attempt <= cfg.maxAttempts + 1 && |tried| == attempt - 1
        invariant Valid() && Begun(from, tried, clock) && seen == Elements(tried)
        invariant attempt > 1 ==> !last.NoAccount?
      {
        if attempt >= cancelFrom {
          GivesUp(Cancelled, from, tried, stickyKey, model, clock, cancelFrom);
          return Failed(Cancelled), tried;
        }
        var id;
        r, id, tried := TryNext(from, tried, stickyKey, model, seen, attempt, clock, cancelFrom, draws(attempt));
        if r.NoneFound() || r.Leased? { return; }
        seen := seen + {id};
        last := r.error;
        attempt := attempt + 1;
      }
      GivesUp(last, from, tried, stickyKey, model, clock, cancelFrom);
      r := Failed(last);
    }

    /** Counts, rows, model cooldowns and loans. */
    ghost function Standing(): Desk
      reads this`accounts, this`modelCool, this`leases, idx`hot
    {
      Desk(idx.hot, accounts, modelCool, leases)
    }

    /** So far nothing has been leased: no count and no loan has changed, and nobody was tried twice. */
    ghost predicate Begun(from: Desk, tried: seq<string>, clock: Clock)
      reads this`accounts, this`modelCool, this`leases, idx`hot
    {
      && leases == from.loans && Recounted(from.hot, idx.hot, "", 0)
      && Attempted(from.rows, accounts, from.cool, modelCool, Latest(clock, |tried| + 1))
      && |tried| <= cfg.maxAttempts && Distinct(tried)
    }

    lemma Begin(clock: Clock)
      requires cfg.maxAttempts >= 1
      ensures Begun(Standing(), [], clock) && Elements([]) == {}
    {
      hide Attempted;
      AttemptedNothing(accounts, modelCool, Latest(clock, 1));
      SameCounts(idx.hot, idx.hot, "");
      NoElements();
    }

    lemma GivesUp(
      e: Error, from: Desk, tried: seq<string>, stickyKey: string, model: string, clock: Clock, cancelFrom: nat)
      requires Begun(from, tried, clock) && !e.NoAccount?
      requires |tried| == cfg.maxAttempts || (e == Cancelled && |tried| + 1 >= cancelFrom)
      ensures Ends(Failed(e), from, tried, stickyKey, model, clock, cancelFrom)
    {
      hide Begun;
    }

    lemma BudgetIsSpendable()
      requires Valid()
      ensures cfg.maxAttempts >= 1
    {
    }

    /** One attempt, seen from the start of the call. */
    method TryNext(
      ghost from: Desk, ghost tried: seq<string>, stickyKey: string, model: string, seen: set<string>, attempt: nat,
      clock: Clock, ghost cancelFrom: nat, draws: Draws)
      returns (r: Outcome, id: string, ghost after: seq<string>)
      requires Valid() && attempt == |tried| + 1 <= cfg.maxAttempts
      requires Begun(from, tried, clock) && seen == Elements(tried)
      modifies this`accounts, this`modelCool, this`leases, idx`hot, idx`ids, idx`pos, sel`rrCursor, sel.sticky
      ensures Valid()
      ensures r.NoneFound() || r.Leased? ==> Ends(r, from, after, stickyKey, model, clock, cancelFrom)
      ensures !r.NoneFound() ==> |after| == attempt && Elements(after) == seen + {id}
      ensures r.Failed? && !r.NoneFound() ==> Begun(from, after, clock)
    {
      hide Valid, Attempted, Exhausted, Cooling, Recounted, UnderCap, AccountUsable, H.Candidates, Elements, Distinct,
        TrimmedIds;
      r, id := AcquireOnce(stickyKey, model, seen, attempt, At(clock, attempt), draws);
      AttemptedTwice(from.rows, old(accounts), accounts, from.cool, old(modelCool), modelCool, clock, attempt);
      RecountedTrans(from.hot, old(idx.hot), idx.hot);
      SameZero(from.hot, idx.hot, id);
      MoreElements(tried, id);
      after := if r.NoneFound() then tried else tried + [id];
    }

    /** How a call ends: with a lease; with nothing left to try; or with the budget spent or the caller gone. Unless
        it is a lease, no count and no loan has changed. */
    ghost predicate Ends(
      r: Outcome, from: Desk, tried: seq<string>, stickyKey: string, model: string, clock: Clock, cancelFrom: nat)
      reads this, idx
    {
      if r.Leased? then Acquired(from, tried, stickyKey, model, clock, r.lease)
      else
        && Begun(from, tried, clock)
        && if r.NoneFound() then NoneLeft(clock, tried) else GaveUp(r.error, |tried|, cfg.maxAttempts, cancelFrom)
    }

    /** What a lease means: the last account tried, usable and not cooling at that time, going out with the account's
        own proxy; one more call in flight and one more loan. */
    ghost predicate Acquired(
      from: Desk, tried: seq<string>, stickyKey: string, model: string, clock: Clock, l: Lease)
      reads this, idx
    {
      && tried != [] && tried[|tried| - 1] == l.accountId && l.accountId in accounts
      && |tried| <= cfg.maxAttempts && Distinct(tried)
      && Fits(l, accounts[l.accountId], stickyKey, model, |tried|)
      && AccountUsable(accounts[l.accountId], At(clock, |tried|))
      && !Cooling(modelCool, l.accountId, model, At(clock, |tried|))
      && (l.proxyUrl == "" ==> !requireProxy)
      && (TrimmedIds(accounts) ==> l.proxyUrl == TrimSpace(accounts[l.accountId].proxyUrl))
      && UnderCap(idx.hot, l.accountId, idx.maxInflight)
      && leases == from.loans + multiset{Loan(l.accountId, model)}
      && Recounted(from.hot, idx.hot, l.accountId, 1)
      && Attempted(from.rows, accounts, from.cool, modelCool, Latest(clock, |tried|))
    }

    /** Settle a lease: one call less in flight first, then the rows, the hot entry, the bindings and the model
        cooldowns follow the result. A cancelled release only counts the call off. */
    method Release(l: Lease, result: Result, cancelled: bool, now: int, draw: nat) returns (done: bool)
      requires Valid()
      modifies this`accounts, this`modelCool, this`leases, idx`hot, idx`ids, idx`pos, sel.sticky
      ensures done <==> l.accountId != "" && !cancelled
      ensures leases == if l.accountId == "" then old(leases) else old(leases) - multiset{Loan(l.accountId, l.model)}
      ensures Valid()
      ensures l.accountId == "" || idx.closed ==> idx.hot == old(idx.hot)
      ensures l.accountId != "" && !idx.closed ==>
        var until := Until(cfg, old(accounts), l, result, now, draw);
        idx.hot == if cancelled then Returned(old(idx.hot), l.accountId)
                   else HotAfter(cfg, old(idx.hot), old(accounts), l, result, until)
      ensures var until := Until(cfg, old(accounts), l, result, now, draw);
        if !done then accounts == old(accounts) && modelCool == old(modelCool) && sel.sticky.View() == old(sel.sticky.View())
        else
          && accounts == RowsAfter(cfg, old(accounts), l, result, until)
          && modelCool == CoolAfter(old(modelCool), old(accounts), l, result, until)
          && sel.sticky.View() == StickyAfter(cfg, old(sel.sticky.View()), l, result)
    {
      hide Valid, Returned, ClearsSticky, Cleared, FailureRow, FailureMeta, SuccessRow, DecayFailureCount, CooldownSeconds,
        SetModel;
      done := false;
      if l.accountId == "" { return; }
      CountOff(l.accountId, l.model);
      if cancelled { return; }
      done := true;
      if l.accountId !in accounts {
        if !result.success && ClearsSticky(cfg, result.statusCode) { ClearSticky(l); }
      } else if result.success {
        ReleaseSuccess(l.accountId);
      } else {
        ReleaseFailure(l, result, now, draw);
      }
    }

    method CountOff(id: string, model: string)
      requires Valid() && id != ""
      modifies this`leases, idx`hot
      ensures Valid() && leases == old(leases) - multiset{Loan(id, model)}
      ensures idx.hot == if idx.closed then old(idx.hot) else Returned(old(idx.hot), id)
    {
      hide H.Coherent, Sticky.Filed, Sticky.Reverses, Sticky.Apart, Bounded;
      var e := idx.SubInflight(id);
      if !idx.closed { ReturnedBounded(old(idx.hot), leases, Loan(id, model)); }
      leases := leases - multiset{Loan(id, model)};
    }

    /** Write new data over a hot entry; its live count stays. */
    method Renew(meta: HotMeta)
      requires Valid() && meta.id in idx.hot
      modifies idx`hot, idx`ids, idx`pos
      ensures Valid()
      ensures idx.hot == if idx.closed then old(idx.hot) else Renewed(old(idx.hot), meta)
    {
      hide H.Coherent, Sticky.Filed, Sticky.Reverses, Sticky.Apart, Bounded, Renewed, H.Promoted;
      NoBlank(idx.hot, idx.ids, idx.pos, idx.cap);
      RenewedBounded(idx.hot, leases, meta);
      RenewedPromoted(idx.hot, idx.cap, meta);
      var _ := idx.Promote(meta);
    }

    method ClearSticky(l: Lease)
      requires Valid() && l.accountId != ""
      modifies sel.sticky
      ensures Valid() && sel.sticky.View() == Cleared(old(sel.sticky.View()), l)
    {
      sel.sticky.DeleteAccount(l.accountId);
      if l.stickyKey != "" { sel.sticky.DeleteKey(l.stickyKey); }
    }

    method ReleaseSuccess(id: string)
      requires Valid() && id in accounts
      modifies this`accounts, idx`hot, idx`ids, idx`pos
      ensures Valid() && accounts == PutRow(old(accounts), SuccessRow(old(accounts)[id]))
      ensures idx.hot == if idx.closed || id !in old(idx.hot) then old(idx.hot)
        else old(idx.hot)[id := old(idx.hot)[id].(failureScore := DecayFailureCount(old(accounts)[id].failureCount))]
    {
      hide H.Coherent, Sticky.Filed, Sticky.Reverses, Sticky.Apart, Bounded, DecayFailureCount;
      var fc := DecayFailureCount(accounts[id].failureCount);
      PatchRow(SuccessRow(accounts[id]));
      if id in idx.hot { Rescore(id, fc); }
    }

    method ReleaseFailure(l: Lease, result: Result, now: int, draw: nat)
      requires Valid() && l.accountId != "" && l.accountId in accounts
      modifies this`accounts, this`modelCool, idx`hot, idx`ids, idx`pos, sel.sticky
      ensures Valid()
      ensures accounts == PutRow(old(accounts), FailureRow(cfg, old(accounts)[l.accountId], result.statusCode, l.model,
        Until(cfg, old(accounts), l, result, now, draw)))
      ensures modelCool == Modelled(old(modelCool), result.statusCode, l, Until(cfg, old(accounts), l, result, now, draw))
      ensures sel.sticky.View() == if ClearsSticky(cfg, result.statusCode) then Cleared(old(sel.sticky.View()), l)
                                   else old(sel.sticky.View())
      ensures idx.hot == if idx.closed || l.accountId !in old(idx.hot) then old(idx.hot)
        else Refused(old(idx.hot), cfg, old(accounts)[l.accountId], result.statusCode, l.model,
                     Until(cfg, old(accounts), l, result, now, draw))
    {
      hide Valid, CooldownSeconds, Cleared, Modelled, FailureRow, TrimSpace, ClearsSticky, Refused, Until, PutRow;
      var code, cur := result.statusCode, accounts[l.accountId];
      var until := now + CooldownSeconds(cfg, code, result.retryAfterNs, cur.failureCount + 1, draw);
      UntilIs(cfg, accounts, l, result, now, draw);
      CoolModel(code, l, until);
      WriteFailure(cur, l, code, until);
    }

    /** The account's own row, hot entry and bindings after a failure. */
    method WriteFailure(cur: Account, l: Lease, code: nat, until: int)
      requires Valid() && l.accountId != "" && l.accountId in accounts && cur == accounts[l.accountId]
      modifies this`accounts, idx`hot, idx`ids, idx`pos, sel.sticky
      ensures Valid() && accounts == PutRow(old(accounts), FailureRow(cfg, cur, code, l.model, until))
      ensures sel.sticky.View() == if ClearsSticky(cfg, code) then Cleared(old(sel.sticky.View()), l)
                                   else old(sel.sticky.View())
      ensures idx.hot == if idx.closed || cur.id !in old(idx.hot) then old(idx.hot)
        else Refused(old(idx.hot), cfg, cur, code, l.model, until)
    {
      hide Valid, Cleared, FailureRow, CooledMeta, TrimSpace, ClearsSticky, Refused, PutRow;
      if cur.id in idx.hot { RefusedTwice(idx.hot, cfg, cur, code, l.model, until); }
      var row := CoolRow(cur, code, l.model, until);
      if ClearsSticky(cfg, code) { ClearSticky(l); }
      PatchRow(row);
      if cur.id in idx.hot { Rescore(cur.id, cur.failureCount + 1); }
    }

    method PatchRow(row: Account)
      requires Valid() && row.id in accounts
      modifies this`accounts
      ensures Valid() && accounts == PutRow(old(accounts), row)
    {
      hide H.Coherent, Sticky.Filed, Sticky.Reverses, Sticky.Apart, Bounded;
      accounts := PutRow(accounts, row);
    }

    method CoolModel(code: nat, l: Lease, until: int)
      requires Valid()
      modifies this`modelCool
      ensures Valid() && modelCool == Modelled(old(modelCool), code, l, until)
    {
      if ModelOnly(code, l.model) && until > 0 { modelCool := SetModel(modelCool, l.accountId, l.model, until); }
    }

    /** The row after a failure; the hot entry cools and is quarantined with it. */
    method CoolRow(cur: Account, code: nat, model: string, until: int) returns (row: Account)
      requires Valid() && cur.id != ""
      modifies idx`hot, idx`ids, idx`pos
      ensures Valid() && row == FailureRow(cfg, cur, code, model, until) && row.id == cur.id
      ensures idx.hot == if idx.closed || cur.id !in old(idx.hot) then old(idx.hot)
        else old(idx.hot)[cur.id := CooledMeta(cfg, old(idx.hot)[cur.id], cur, code, model, until)]
    {
      hide Valid, Quarantines, CoolsAccount, ErrorText;
      row := cur.(failureCount := cur.failureCount + 1, lastError := ErrorText(code), revision := cur.revision + 1);
      if CoolsAccount(code, model) {
        row := row.(cooldownUntil := until);
        CoolHot(cur.id, until);
      }
      if code == 401 { row := row.(consecutiveUnauthorized := cur.consecutiveUnauthorized + 1); }
      QuarantineCools(cfg, cur, code, model);
      if Quarantines(cfg, cur, code) {
        row := row.(enabled := false, lifecycle := LifecycleQuarantined);
        if cur.id in idx.hot { Quarantine(cur.id, until); }
      }
    }

    method CoolHot(id: string, until: int)
      requires Valid() && id != ""
      modifies idx`hot
      ensures Valid()
      ensures idx.hot == if idx.closed || id !in old(idx.hot) then old(idx.hot)
        else old(idx.hot)[id := old(idx.hot)[id].(cooldownUntil := until)]
    {
      hide H.Coherent, Sticky.Filed, Sticky.Reverses, Sticky.Apart;
      var _ := idx.SetCooldown(id, until);
    }

    method Quarantine(id: string, until: int)
      requires Valid() && id in idx.hot
      modifies idx`hot, idx`ids, idx`pos
      ensures Valid()
      ensures idx.hot == if idx.closed then old(idx.hot)
        else old(idx.hot)[id := old(idx.hot)[id].(enabled := false, lifecycle := LifecycleQuarantined, cooldownUntil := until)]
    {
      hide H.Indexed, Sticky.Filed, Sticky.Reverses, Sticky.Apart, Bounded;
      Renew(idx.hot[id].(enabled := false, lifecycle := LifecycleQuarantined, cooldownUntil := until));
    }

    method Rescore(id: string, fc: int)
      requires Valid() && id in idx.hot
      modifies idx`hot, idx`ids, idx`pos
      ensures Valid()
      ensures idx.hot == if idx.closed then old(idx.hot)
        else old(idx.hot)[id := old(idx.hot)[id].(failureScore := fc)]
    {
      hide H.Indexed, Sticky.Filed, Sticky.Reverses, Sticky.Apart, Bounded;
      Renew(idx.hot[id].(failureScore := fc));
    }
  }

  ghost predicate Distinct(ids: seq<string>) {
    forall i, j | 0 <= i < j < |ids| :: ids[i] != ids[j]
  }

  ghost function Elements(ids: seq<string>): set<string> {
    set x | x in ids
  }

  lemma NoElements()
    ensures Elements([]) == {} && Distinct([])
  {
  }

  lemma MoreElements(ids: seq<string>, id: string)
    ensures Elements(ids + [id]) == Elements(ids) + {id}
    ensures id !in Elements(ids) && Distinct(ids) ==> Distinct(ids + [id])
  {
  }

  lemma SameZero(h: Sel.Hot, g: Sel.Hot, id: string)
    ensures Recounted(h, g, id, 0) ==> Recounted(h, g, "", 0)
  {
  }

  lemma AttemptedTwice(
    t: Table, u: Table, v: Table, mc: ModelCool, mid: ModelCool, next: ModelCool, clock: Clock, attempt: nat)
    requires attempt > 0
    requires Attempted(t, u, mc, mid, Latest(clock, attempt)) && Attempted(u, v, mid, next, At(clock, attempt))
    ensures Attempted(t, v, mc, next, Latest(clock, attempt)) && Attempted(t, v, mc, next, Latest(clock, attempt + 1))
  {
    hide Attempted;
    AttemptedMore(t, u, v, mc, mid, next, Latest(clock, attempt), At(clock, attempt), Latest(clock, attempt));
    AttemptedMore(t, u, v, mc, mid, next, Latest(clock, attempt), At(clock, attempt), Latest(clock, attempt + 1));
  }

  lemma SameButProxyTrans(t: Table, u: Table, v: Table)
    requires SameButProxy(t, u) && SameButProxy(u, v)
    ensures SameButProxy(t, v)
  {
  }

  lemma ReachableAllowed(strategy: string, hot: Sel.Hot, allowed: set<string>)
    requires allowed <= hot.Keys
    ensures Sel.Reachable(strategy, hot, allowed) <= allowed
  {
  }

  lemma SameCounts(h: Sel.Hot, g: Sel.Hot, id: string)
    requires h == g
    ensures Recounted(h, g, id, 0)
  {
  }

  lemma NoModel(mc: ModelCool, id: string, now: int)
    ensures !Cooling(mc, id, "", now) && SameCooling(mc, mc, now)
  {
  }

  lemma CoolingKept(mc: ModelCool, next: ModelCool, id: string, model: string, now: int)
    requires SameCooling(mc, next, now)
    ensures Cooling(next, id, model, now) <==> Cooling(mc, id, model, now)
  {
  }

  lemma BoundProxies(t: Table, h: Sel.Hot, a: Account, given: Option<(string, string)>, now: int)
    requires a.id in t && t[a.id] == a
    ensures var u := RowsBound(t, a, given);
      && a.id in u && u[a.id].accessToken == a.accessToken
      && (AccountUsable(u[a.id], now) <==> AccountUsable(a, now))
    ensures Recounted(h, h, a.id, 0) && Recounted(h, HotBound(h, t, a, given), a.id, 0)
    ensures HotBound(h, t, a, given).Keys == h.Keys
  {
    hide TrimSpace;
    BoundSame(t, a, given);
  }

  lemma ProxyOfBlank(a: Account, given: Option<(string, string)>)
    ensures ProxyOf(a, given).0 == "" ==> TrimSpace(a.proxyUrl) == ""
  {
  }

  lemma CountedOnce(h: Sel.Hot, g: Sel.Hot, id: string, model: string, leases: multiset<Loan>)
    requires Recounted(h, g, id, 0) && id in g
    ensures Recounted(h, H.Counted(g, id, 1), id, 1)
    ensures Bounded(g, leases) ==> Bounded(H.Counted(g, id, 1), leases + multiset{Loan(id, model)})
  {
    AccountsWith(leases, Loan(id, model));
  }

  ghost predicate UnderCap(h: Sel.Hot, id: string, max: int) {
    id in h && (max > 0 ==> h[id].inflight <= max)
  }

  lemma CapKept(h: Sel.Hot, g: Sel.Hot, at: int, max: int, tried: set<string>, id: string)
    requires id in H.Candidates(h, at, max, tried)
    ensures Recounted(h, g, id, 1) ==> UnderCap(g, id, max)
  {
  }

  lemma QuarantineCools(cfg: Config, a: Account, code: nat, model: string)
    ensures Quarantines(cfg, a, code) ==> CoolsAccount(code, model)
  {
  }

  lemma ReturnedBounded(h: Sel.Hot, leases: multiset<Loan>, l: Loan)
    requires Bounded(h, leases)
    ensures Bounded(Returned(h, l.account), leases - multiset{l})
  {
    if l in leases { AccountsWithout(leases, l); } else { assert leases - multiset{l} == leases; }
  }

  lemma RenewedBounded(h: Sel.Hot, leases: multiset<Loan>, meta: HotMeta)
    requires meta.id in h
    ensures Bounded(h, leases) ==> Bounded(Renewed(h, meta), leases)
  {
  }

  lemma RenewedPromoted(h: Sel.Hot, cap: int, meta: HotMeta)
    requires meta.id in h
    ensures forall d, g :: H.Promoted(h, cap, meta, d, g) ==> g == Renewed(h, meta)
  {
  }

  lemma NoBlank(hot: Sel.Hot, ids: seq<string>, pos: map<string, nat>, cap: int)
    requires H.Coherent(hot, ids, pos, cap)
    ensures "" !in hot
  {
  }

  lemma SameTable(t: Table)
    ensures SameButProxy(t, t)
  {
  }
}
