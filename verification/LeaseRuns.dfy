/** Runs of the lease manager, the hot index and the refresher together: counts, cooling times, quarantine, proxies. */
module LeaseRuns {
  import opened Text
  import opened Catalog
  import H = HotIndex
  import Sel = Selection
  import L = Lease
  import R = Refresh

  datatype State = State(hot: Sel.Hot, rows: Table, cool: L.ModelCool, loans: multiset<L.Loan>, clock: int)

  function Of(d: L.Desk, clock: int): State {
    State(d.hot, d.rows, d.cool, d.loans, clock)
  }

  /** Everything the manager, the index and the background refresher do. */
  datatype Event =
    | Acquire(id: string, model: string, now: int)
    | Miss(now: int)
    | Release(l: L.Lease, r: L.Result, now: int, draw: nat)
    | Cancel(id: string, model: string)
    | Promote(meta: HotMeta, cap: int, demoted: string)
    | Demote(gone: seq<string>)
    | Resize(kept: seq<string>)
    | Reload(listed: Table, at: int, cap: int)
    | RefreshFailed(id: string, p: R.Policy, now: int, error: string)
    | RefreshDone(id: string)
    | NewToken(id: string, token: string)

  predicate Refreshes(e: Event) {
    e.RefreshFailed? || e.RefreshDone? || e.NewToken?
  }

  function RefreshedRow(a: Account, e: Event): (r: Account)
    requires Refreshes(e)
    ensures r.id == a.id
  {
    match e
    case RefreshFailed(_, p, now, error) => R.FailedRow(p, a, now, error)
    case RefreshDone(_) => R.SucceededRow(a)
    case NewToken(_, token) => R.TokenRow(a, token)
  }

  /** The refresher writes one row and nothing else. */
  function Refreshed(t: Table, e: Event): Table
    requires Refreshes(e)
  {
    if e.id in t then PutRow(t, RefreshedRow(t[e.id], e)) else t
  }

  ghost predicate HotOnly(s: State, n: State) {
    n.rows == s.rows && n.cool == s.cool && n.loans == s.loans && n.clock == s.clock
  }

  ghost predicate Next(cfg: L.Config, s: State, e: Event, n: State) {
    match e
    case Acquire(id, model, now) =>
      && s.clock <= now == n.clock && id in n.rows
      && L.AccountUsable(n.rows[id], now) && !L.Cooling(n.cool, id, model, now)
      && L.Recounted(s.hot, n.hot, id, 1) && n.loans == s.loans + multiset{L.Loan(id, model)}
      && L.Attempted(s.rows, n.rows, s.cool, n.cool, now)
    case Miss(now) =>
      && s.clock <= now == n.clock && L.Recounted(s.hot, n.hot, "", 0) && n.loans == s.loans
      && L.Attempted(s.rows, n.rows, s.cool, n.cool, now)
    case Release(l, r, now, draw) =>
      && s.clock <= now == n.clock && l.accountId != ""
      && n == Released(cfg, s, l, r, now, draw)
    case Cancel(id, model) =>
      n == s.(hot := L.Returned(s.hot, id), loans := s.loans - multiset{L.Loan(id, model)})
    case Promote(meta, cap, demoted) =>
      HotOnly(s, n) && (meta.id in s.hot || meta.inflight <= 0) && H.Promoted(s.hot, cap, meta, demoted, n.hot)
    case Demote(gone) => HotOnly(s, n) && n.hot == H.Without(s.hot, gone)
    case Resize(kept) => HotOnly(s, n) && n.hot == H.Only(s.hot, kept)
    case Reload(listed, at, cap) =>
      HotOnly(s, n) && cap >= 0 && n.hot == H.ById(H.Reloaded(listed, H.TopRows(listed, at, cap), s.hot))
    case RefreshFailed(_, _, now, _) => s.clock <= now && n == s.(rows := Refreshed(s.rows, e), clock := now)
    case RefreshDone(_) => n == s.(rows := Refreshed(s.rows, e))
    case NewToken(_, token) => token != "" && n == s.(rows := Refreshed(s.rows, e))
  }

  function Released(cfg: L.Config, s: State, l: L.Lease, r: L.Result, now: int, draw: nat): State {
    var until := L.Until(cfg, s.rows, l, r, now, draw);
    State(L.HotAfter(cfg, s.hot, s.rows, l, r, until), L.RowsAfter(cfg, s.rows, l, r, until),
          L.CoolAfter(s.cool, s.rows, l, r, until), s.loans - multiset{L.Loan(l.accountId, l.model)}, now)
  }

  ghost predicate Run(cfg: L.Config, ss: seq<State>, es: seq<Event>) {
    |ss| == |es| + 1 && forall i | 0 <= i < |es| :: Next(cfg, ss[i], es[i], ss[i + 1])
  }

  /** A release gives back a loan that is out. */
  ghost predicate Paired(s: State, e: Event) {
    && (e.Release? ==> L.Loan(e.l.accountId, e.l.model) in s.loans)
    && (e.Cancel? ==> L.Loan(e.id, e.model) in s.loans)
  }

  ghost predicate PairedRun(cfg: L.Config, ss: seq<State>, es: seq<Event>) {
    Run(cfg, ss, es) && forall i | 0 <= i < |es| :: Paired(ss[i], es[i])
  }

  // ---- in-flight counts ----

  ghost predicate Bounded(s: State) {
    L.Bounded(s.hot, s.loans)
  }

  ghost predicate Exact(s: State, id: string) {
    id in s.hot && s.hot[id].inflight == L.Accounts(s.loans)[id]
  }

  /** The counts a reload leaves are counts that were there, or none. */
  lemma ReloadCounts(listed: Table, now: int, cap: nat, prev: Sel.Hot)
    ensures forall x | x in H.ById(H.Reloaded(listed, H.TopRows(listed, now, cap), prev)) ::
      H.ById(H.Reloaded(listed, H.TopRows(listed, now, cap), prev))[x].inflight == H.InflightOf(prev, x)
  {
    hide H.ById, H.Reloaded, H.TopRows, Listable, Before;
    H.LoadHoldsTop(listed, now, cap, prev);
  }

  /** The same, seen by somebody who looks at counts and lent accounts only. */
  ghost predicate Counts(h: Sel.Hot, lent: multiset<string>, e: Event, g: Sel.Hot, after: multiset<string>) {
    match e
    case Acquire(id, _, _) => L.Recounted(h, g, id, 1) && after == lent + multiset{id}
    case Miss(_) => L.Recounted(h, g, "", 0) && after == lent
    case Release(l, _, _, _) => Returns(h, lent, l.accountId, g, after)
    case Cancel(id, _) => Returns(h, lent, id, g, after)
    case Promote(meta, cap, demoted) =>
      (meta.id in h || meta.inflight <= 0) && H.Promoted(h, cap, meta, demoted, g) && after == lent
    case Demote(gone) => g == H.Without(h, gone) && after == lent
    case Resize(kept) => g == H.Only(h, kept) && after == lent
    case Reload(listed, at, cap) =>
      cap >= 0 && g == H.ById(H.Reloaded(listed, H.TopRows(listed, at, cap), h)) && after == lent
    case _ => g == h && after == lent
  }

  ghost predicate Returns(h: Sel.Hot, lent: multiset<string>, id: string, g: Sel.Hot, after: multiset<string>) {
    && L.Recounted(h, g, id, if id in h && h[id].inflight > 0 then -1 else 0)
    && (after == lent || (id in lent && after == lent - multiset{id}))
  }

  lemma UnrefreshedCounts(cfg: L.Config, s: State, e: Event, n: State)
    requires Next(cfg, s, e, n) && !Refreshes(e)
    ensures Counts(s.hot, L.Accounts(s.loans), e, n.hot, L.Accounts(n.loans))
    ensures Paired(s, e) && e.Release? ==>
      e.l.accountId in L.Accounts(s.loans) && L.Accounts(n.loans) == L.Accounts(s.loans) - multiset{e.l.accountId}
    ensures Paired(s, e) && e.Cancel? ==>
      e.id in L.Accounts(s.loans) && L.Accounts(n.loans) == L.Accounts(s.loans) - multiset{e.id}
  {
    hide L.Accounts, L.HotAfter, L.RowsAfter, L.CoolAfter, L.Attempted, L.Recounted, H.Promoted, H.ById, H.Reloaded,
      H.TopRows, L.Returned, L.AccountUsable, L.Cooling, Returns, Refreshed;
    match e
    case Acquire(id, model, _) => L.AccountsWith(s.loans, L.Loan(id, model));
    case Release(l, r, now, draw) => ReleaseReturns(cfg, s, l, r, now, draw);
    case Cancel(id, model) => CancelReturns(s, id, model);
    case _ =>
  }

  lemma SeenByCounts(cfg: L.Config, s: State, e: Event, n: State)
    requires Next(cfg, s, e, n)
    ensures Counts(s.hot, L.Accounts(s.loans), e, n.hot, L.Accounts(n.loans))
    ensures Paired(s, e) && e.Release? ==>
      e.l.accountId in L.Accounts(s.loans) && L.Accounts(n.loans) == L.Accounts(s.loans) - multiset{e.l.accountId}
    ensures Paired(s, e) && e.Cancel? ==>
      e.id in L.Accounts(s.loans) && L.Accounts(n.loans) == L.Accounts(s.loans) - multiset{e.id}
  {
    hide Next, L.Accounts, L.Recounted, H.Promoted, H.ById, H.Reloaded, H.TopRows, H.Without, H.Only, Returns, Refreshed;
    if Refreshes(e) { RefreshNext(cfg, s, e, n); } else { UnrefreshedCounts(cfg, s, e, n); }
  }

  lemma ReleaseReturns(cfg: L.Config, s: State, l: L.Lease, r: L.Result, now: int, draw: nat)
    ensures var n, lent := Released(cfg, s, l, r, now, draw), L.Accounts(s.loans);
      && Returns(s.hot, lent, l.accountId, n.hot, L.Accounts(n.loans))
      && (L.Loan(l.accountId, l.model) in s.loans ==>
            l.accountId in lent && L.Accounts(n.loans) == lent - multiset{l.accountId})
  {
    LoanGone(s.loans, L.Loan(l.accountId, l.model));
    L.HotAfterRecounts(cfg, s.hot, s.rows, l, r, L.Until(cfg, s.rows, l, r, now, draw));
    hide L.Accounts, L.HotAfter, L.RowsAfter, L.CoolAfter, L.Until, L.Recounted;
  }

  lemma CancelReturns(s: State, id: string, model: string)
    ensures var loans, lent := s.loans - multiset{L.Loan(id, model)}, L.Accounts(s.loans);
      && Returns(s.hot, lent, id, L.Returned(s.hot, id), L.Accounts(loans))
      && (L.Loan(id, model) in s.loans ==> id in lent && L.Accounts(loans) == lent - multiset{id})
  {
    LoanGone(s.loans, L.Loan(id, model));
    ReturnedRecounts(s.hot, id);
    hide L.Accounts, L.Returned, L.Recounted;
  }

  lemma ReturnedRecounts(h: Sel.Hot, id: string)
    ensures L.Recounted(h, L.Returned(h, id), id, if id in h && h[id].inflight > 0 then -1 else 0)
  {
  }

  lemma LoanGone(loans: multiset<L.Loan>, l: L.Loan)
    ensures l in loans ==>
      l.account in L.Accounts(loans) && L.Accounts(loans - multiset{l}) == L.Accounts(loans) - multiset{l.account}
    ensures l !in loans ==> L.Accounts(loans - multiset{l}) == L.Accounts(loans)
  {
    hide L.Accounts;
    if l in loans {
      L.AccountsWithout(loans, l);
      OneBack(l.account, L.Accounts(loans - multiset{l}));
    } else {
      assert loans - multiset{l} == loans;
    }
  }

  lemma OneBack(a: string, rest: multiset<string>)
    ensures a in multiset{a} + rest && multiset{a} + rest - multiset{a} == rest
  {
  }

  ghost predicate Within(h: Sel.Hot, lent: multiset<string>) {
    forall k | k in h :: 0 <= h[k].inflight <= lent[k]
  }

  lemma CountsWithin(h: Sel.Hot, lent: multiset<string>, e: Event, g: Sel.Hot, after: multiset<string>)
    requires Counts(h, lent, e, g, after) && Within(h, lent)
    ensures Within(g, after)
  {
    hide H.ById, H.Reloaded, H.TopRows, H.IsVictim, Returns;
    match e
    case Release(l, _, _, _) => ReturnsWithin(h, lent, l.accountId, g, after);
    case Cancel(id, _) => ReturnsWithin(h, lent, id, g, after);
    case Reload(listed, at, cap) => ReloadCounts(listed, at, cap, h);
    case _ =>
  }

  lemma ReturnsWithin(h: Sel.Hot, lent: multiset<string>, id: string, g: Sel.Hot, after: multiset<string>)
    requires Returns(h, lent, id, g, after) && Within(h, lent)
    ensures Within(g, after)
  {
  }

  lemma CountsExact(h: Sel.Hot, lent: multiset<string>, e: Event, g: Sel.Hot, after: multiset<string>, id: string)
    requires Counts(h, lent, e, g, after) && id in h && h[id].inflight == lent[id] && id in g
    requires e.Release? ==> e.l.accountId in lent && after == lent - multiset{e.l.accountId}
    requires e.Cancel? ==> e.id in lent && after == lent - multiset{e.id}
    ensures g[id].inflight == after[id]
  {
    hide H.ById, H.Reloaded, H.TopRows, H.IsVictim;
    if e.Reload? { ReloadCounts(e.listed, e.at, e.cap, h); }
  }

  lemma StepBounded(cfg: L.Config, s: State, e: Event, n: State)
    requires Bounded(s) && Next(cfg, s, e, n)
    ensures Bounded(n)
  {
    SeenByCounts(cfg, s, e, n);
    hide Counts, L.Accounts, Next;
    CountsWithin(s.hot, L.Accounts(s.loans), e, n.hot, L.Accounts(n.loans));
  }

  lemma StepExact(cfg: L.Config, s: State, e: Event, n: State, id: string)
    requires Next(cfg, s, e, n) && Paired(s, e) && Exact(s, id) && id in n.hot
    ensures Exact(n, id)
  {
    hide Counts, L.Accounts, Next;
    SeenByCounts(cfg, s, e, n);
    CountsExact(s.hot, L.Accounts(s.loans), e, n.hot, L.Accounts(n.loans), id);
  }

  /** Whatever happens in whatever order, no hot account claims more calls than it has leases; and with one release
      per lease an account that was exact and stayed hot all along is still exact. */
  lemma {:induction false} RunCounts(cfg: L.Config, ss: seq<State>, es: seq<Event>, id: string, i: nat)
    requires Run(cfg, ss, es) && Bounded(ss[0]) && i < |ss|
    ensures Bounded(ss[i])
    ensures PairedRun(cfg, ss, es) && Exact(ss[0], id) && (forall j | 0 <= j <= i :: id in ss[j].hot) ==> Exact(ss[i], id)
    decreases i
  {
    hide Next, Bounded, Exact, Paired;
    if i > 0 {
      RunCounts(cfg, ss, es, id, i - 1);
      StepBounded(cfg, ss[i - 1], es[i - 1], ss[i]);
      if PairedRun(cfg, ss, es) && Exact(ss[i - 1], id) && id in ss[i].hot {
        StepExact(cfg, ss[i - 1], es[i - 1], ss[i], id);
      }
    }
  }

  // ---- the row of one account over a run ----

  /** The event writes a failure to the row of the account. */
  predicate Fails(s: State, e: Event, id: string) {
    e.Release? && e.l.accountId == id && id in s.rows && !e.r.success
  }

  /** A refresh of the account has failed. */
  predicate FailsToRefresh(s: State, e: Event, id: string) {
    e.RefreshFailed? && e.id == id && id in s.rows
  }

  /** The event sets the account's cooling time. */
  predicate Cools(s: State, e: Event, id: string) {
    (Fails(s, e, id) && L.CoolsAccount(e.r.statusCode, e.l.model)) || FailsToRefresh(s, e, id)
  }

  predicate Quarantines(cfg: L.Config, s: State, e: Event, id: string) {
    || (Fails(s, e, id) && L.Quarantines(cfg, s.rows[id], e.r.statusCode))
    || (FailsToRefresh(s, e, id) && R.Quarantines(e.p, s.rows[id]))
  }

  function TimeSet(cfg: L.Config, s: State, e: Event): int
    requires e.Release? || e.RefreshFailed?
  {
    if e.Release? then L.Until(cfg, s.rows, e.l, e.r, e.now, e.draw) else e.now + R.Cooldown(e.p)
  }

  predicate SwitchedOn(a: Account) {
    a.enabled && !a.manualDisabled && (a.lifecycle == "" || a.lifecycle == LifecycleActive)
  }

  /** Everything about usability but the cooling time. */
  predicate Sound(a: Account) {
    SwitchedOn(a) && a.accessToken != ""
  }

  /** The event writes the row of the account, beyond its proxy. */
  predicate Writes(e: Event, id: string) {
    (e.Release? && e.l.accountId == id) || (Refreshes(e) && e.id == id)
  }

  /** What a release leaves of one row. */
  lemma ReleasedRow(cfg: L.Config, t: Table, l: L.Lease, r: L.Result, until: int, id: string)
    requires id in t
    ensures var u := L.RowsAfter(cfg, t, l, r, until);
      && u.Keys == t.Keys
      && u[id] == if l.accountId != id then t[id]
                  else if r.success then L.SuccessRow(t[id])
                  else L.FailureRow(cfg, t[id], r.statusCode, l.model, until)
  {
    hide L.Quarantines, L.CoolsAccount, L.ErrorText, L.DecayFailureCount;
  }

  lemma RefreshOther(t: Table, e: Event, id: string)
    requires Refreshes(e) && id in t
    ensures Refreshed(t, e).Keys == t.Keys
    ensures Refreshed(t, e)[id] == if e.id == id then RefreshedRow(t[id], e) else t[id]
  {
    hide RefreshedRow;
  }

  lemma RefreshNext(cfg: L.Config, s: State, e: Event, n: State)
    requires Next(cfg, s, e, n) && Refreshes(e)
    ensures n == s.(rows := Refreshed(s.rows, e), clock := n.clock) && n.clock >= s.clock
  {
    hide Refreshed;
  }

  lemma UnrefreshedRow(cfg: L.Config, s: State, e: Event, n: State, id: string)
    requires Next(cfg, s, e, n) && id in s.rows && !Refreshes(e)
    ensures n.rows.Keys == s.rows.Keys && n.clock >= s.clock
    ensures !(e.Release? && e.l.accountId == id) ==>
      n.rows[id] == s.rows[id].(proxyUrl := n.rows[id].proxyUrl, proxyMode := n.rows[id].proxyMode,
                                revision := n.rows[id].revision)
    ensures !(e.Release? && e.l.accountId == id) && !e.Acquire? && !e.Miss? ==> n.rows[id] == s.rows[id]
    ensures e.Release? && e.l.accountId == id ==>
      n.rows[id] == if e.r.success then L.SuccessRow(s.rows[id])
                    else L.FailureRow(cfg, s.rows[id], e.r.statusCode, e.l.model, TimeSet(cfg, s, e))
  {
    hide L.Recounted, L.HotAfter, L.CoolAfter, L.SameCooling, L.Until, L.RowsAfter, L.SuccessRow, L.FailureRow,
      L.KeepsProxies, L.TrimmedIds, L.AccountUsable, L.Cooling, H.Promoted, H.ById, H.Reloaded, H.TopRows, H.Without,
      H.Only, L.Returned;
    if e.Release? { ReleasedRow(cfg, s.rows, e.l, e.r, TimeSet(cfg, s, e), id); }
  }

  /** The same for any event: who is neither released nor refreshed keeps all but the proxy and the revision. */
  lemma OtherRow(cfg: L.Config, s: State, e: Event, n: State, id: string)
    requires Next(cfg, s, e, n) && id in s.rows
    ensures n.rows.Keys == s.rows.Keys && n.clock >= s.clock
    ensures !Writes(e, id) ==>
      n.rows[id] == s.rows[id].(proxyUrl := n.rows[id].proxyUrl, proxyMode := n.rows[id].proxyMode,
                                revision := n.rows[id].revision)
    ensures !Writes(e, id) && !e.Acquire? && !e.Miss? ==> n.rows[id] == s.rows[id]
    ensures Refreshes(e) && e.id == id ==> n.rows[id] == RefreshedRow(s.rows[id], e)
    ensures e.Release? && e.l.accountId == id ==>
      n.rows[id] == if e.r.success then L.SuccessRow(s.rows[id])
                    else L.FailureRow(cfg, s.rows[id], e.r.statusCode, e.l.model, TimeSet(cfg, s, e))
  {
    hide Next, RefreshedRow, Refreshed, TimeSet, L.SuccessRow, L.FailureRow;
    if Refreshes(e) {
      RefreshNext(cfg, s, e, n);
      RefreshOther(s.rows, e, id);
    } else {
      UnrefreshedRow(cfg, s, e, n, id);
    }
  }

  /** What becomes of usability when a failure or a success is written to a row. */
  lemma ReleaseWrites(cfg: L.Config, a: Account, code: nat, model: string, until: int)
    ensures var r := L.FailureRow(cfg, a, code, model, until);
      && r.cooldownUntil == (if L.CoolsAccount(code, model) then until else a.cooldownUntil)
      && (SwitchedOn(r) <==> SwitchedOn(a) && !L.Quarantines(cfg, a, code))
      && (r.enabled <==> a.enabled && !L.Quarantines(cfg, a, code))
      && r.accessToken == a.accessToken && r.proxyUrl == a.proxyUrl && r.proxyMode == a.proxyMode
    ensures var r := L.SuccessRow(a);
      && r.cooldownUntil == a.cooldownUntil && (SwitchedOn(r) <==> SwitchedOn(a)) && r.enabled == a.enabled
      && r.accessToken == a.accessToken && r.proxyUrl == a.proxyUrl && r.proxyMode == a.proxyMode
  {
    hide L.Quarantines, L.CoolsAccount, L.DecayFailureCount, L.ErrorText;
  }

  /** And when the refresher writes to it. */
  lemma RefreshWrites(a: Account, e: Event)
    requires Refreshes(e)
    ensures var r := RefreshedRow(a, e);
      && r.cooldownUntil == (if e.RefreshFailed? then e.now + R.Cooldown(e.p) else a.cooldownUntil)
      && (SwitchedOn(r) <==> SwitchedOn(a) && !(e.RefreshFailed? && R.Quarantines(e.p, a)))
      && (r.enabled <==> a.enabled && !(e.RefreshFailed? && R.Quarantines(e.p, a)))
      && r.accessToken == (if e.NewToken? then e.token else a.accessToken)
      && r.proxyUrl == a.proxyUrl && r.proxyMode == a.proxyMode
  {
    hide R.Message, R.Quarantines, R.Cooldown;
  }

  /** The row an event leaves, as `OtherRow` has it. */
  ghost predicate Follows(cfg: L.Config, s: State, e: Event, id: string, r: Account)
    requires id in s.rows
  {
    if e.Release? && e.l.accountId == id then
      r == if e.r.success then L.SuccessRow(s.rows[id])
           else L.FailureRow(cfg, s.rows[id], e.r.statusCode, e.l.model, TimeSet(cfg, s, e))
    else if Refreshes(e) && e.id == id then r == RefreshedRow(s.rows[id], e)
    else
      && r == s.rows[id].(proxyUrl := r.proxyUrl, proxyMode := r.proxyMode, revision := r.revision)
      && (!e.Acquire? && !e.Miss? ==> r == s.rows[id])
  }

  lemma RowFollows(cfg: L.Config, s: State, e: Event, n: State, id: string)
    requires Next(cfg, s, e, n) && id in s.rows
    ensures id in n.rows && n.clock >= s.clock && Follows(cfg, s, e, id, n.rows[id])
  {
    hide Next, RefreshedRow, TimeSet, L.SuccessRow, L.FailureRow;
    OtherRow(cfg, s, e, n, id);
  }

  lemma RowOutcome(cfg: L.Config, s: State, e: Event, id: string, r: Account)
    requires id in s.rows && Follows(cfg, s, e, id, r) && (e.NewToken? ==> e.token != "")
    ensures r.cooldownUntil == if Cools(s, e, id) then TimeSet(cfg, s, e) else s.rows[id].cooldownUntil
    ensures SwitchedOn(r) <==> SwitchedOn(s.rows[id]) && !Quarantines(cfg, s, e, id)
    ensures r.accessToken != "" <==> s.rows[id].accessToken != "" || (e.NewToken? && e.id == id)
    ensures !s.rows[id].enabled || Quarantines(cfg, s, e, id) ==> !r.enabled
    ensures !e.Acquire? && !e.Miss? ==> r.proxyUrl == s.rows[id].proxyUrl && r.proxyMode == s.rows[id].proxyMode
  {
    hide L.Until, L.Quarantines, L.CoolsAccount, L.FailureRow, L.SuccessRow, RefreshedRow, R.Quarantines, R.Cooldown, SwitchedOn;
    if e.Release? && e.l.accountId == id {
      ReleaseWrites(cfg, s.rows[id], e.r.statusCode, e.l.model, TimeSet(cfg, s, e));
    } else if Refreshes(e) && e.id == id {
      RefreshWrites(s.rows[id], e);
    } else {
      SameSwitch(s.rows[id], r);
    }
  }

  /** What one event does to one row. */
  lemma RowAfter(cfg: L.Config, s: State, e: Event, n: State, id: string)
    requires Next(cfg, s, e, n) && id in s.rows
    ensures id in n.rows
    ensures n.rows[id].cooldownUntil == if Cools(s, e, id) then TimeSet(cfg, s, e) else s.rows[id].cooldownUntil
    ensures SwitchedOn(n.rows[id]) <==> SwitchedOn(s.rows[id]) && !Quarantines(cfg, s, e, id)
    ensures n.rows[id].accessToken != "" <==> s.rows[id].accessToken != "" || (e.NewToken? && e.id == id)
    ensures !s.rows[id].enabled || Quarantines(cfg, s, e, id) ==> !n.rows[id].enabled
    ensures !e.Acquire? && !e.Miss? ==>
      n.rows[id].proxyUrl == s.rows[id].proxyUrl && n.rows[id].proxyMode == s.rows[id].proxyMode
    ensures n.clock >= s.clock
  {
    hide Next, Follows, TimeSet, SwitchedOn, Cools, Quarantines;
    RowFollows(cfg, s, e, n, id);
    TokenIsNew(cfg, s, e, n);
    RowOutcome(cfg, s, e, id, n.rows[id]);
  }

  lemma SameSwitch(a: Account, r: Account)
    requires r == a.(proxyUrl := r.proxyUrl, proxyMode := r.proxyMode, revision := r.revision)
    ensures SwitchedOn(r) <==> SwitchedOn(a)
  {
  }

  lemma TokenIsNew(cfg: L.Config, s: State, e: Event, n: State)
    requires Next(cfg, s, e, n)
    ensures e.NewToken? ==> e.token != ""
  {
    hide Refreshed;
  }

  /** The last cooling time set for the account, or the one it came with. */
  function LastTime(cfg: L.Config, ss: seq<State>, es: seq<Event>, id: string, n: nat): int
    requires n < |ss| && n <= |es| && id in ss[0].rows
  {
    if n == 0 then ss[0].rows[id].cooldownUntil
    else if Cools(ss[n - 1], es[n - 1], id) then TimeSet(cfg, ss[n - 1], es[n - 1])
    else LastTime(cfg, ss, es, id, n - 1)
  }

  predicate QuarantinedBy(cfg: L.Config, ss: seq<State>, es: seq<Event>, id: string, n: nat)
    requires n <= |ss| && n <= |es|
  {
    exists i | 0 <= i < n :: Quarantines(cfg, ss[i], es[i], id)
  }

  predicate TokenGiven(ss: seq<State>, es: seq<Event>, id: string, n: nat)
    requires n <= |es| && ss != [] && id in ss[0].rows
  {
    ss[0].rows[id].accessToken != "" || exists i | 0 <= i < n :: es[i].NewToken? && es[i].id == id
  }

  lemma {:induction false} RowOverRun(cfg: L.Config, ss: seq<State>, es: seq<Event>, id: string, n: nat)
    requires Run(cfg, ss, es) && n < |ss| && id in ss[0].rows
    ensures id in ss[n].rows && ss[n].rows[id].cooldownUntil == LastTime(cfg, ss, es, id, n)
    ensures SwitchedOn(ss[n].rows[id]) <==> SwitchedOn(ss[0].rows[id]) && !QuarantinedBy(cfg, ss, es, id, n)
    ensures ss[n].rows[id].accessToken != "" <==> TokenGiven(ss, es, id, n)
    decreases n
  {
    hide Next, Cools, Quarantines, SwitchedOn, TimeSet;
    if n > 0 {
      RowOverRun(cfg, ss, es, id, n - 1);
      RowAfter(cfg, ss[n - 1], es[n - 1], ss[n], id);
    }
  }

  /** Over every run: the account is usable at a time if and only if it came switched on, no release and no failed
      refresh has quarantined it, it came with a token or was given one, and the last cooling time set is over. */
  lemma UsableWhen(cfg: L.Config, ss: seq<State>, es: seq<Event>, id: string, n: nat, now: int)
    requires Run(cfg, ss, es) && n < |ss| && id in ss[0].rows
    ensures id in ss[n].rows
    ensures L.AccountUsable(ss[n].rows[id], now)
       <==> && SwitchedOn(ss[0].rows[id]) && !QuarantinedBy(cfg, ss, es, id, n) && TokenGiven(ss, es, id, n)
            && LastTime(cfg, ss, es, id, n) <= now
    ensures id in ListableIds(ss[n].rows, now) ==> L.AccountUsable(ss[n].rows[id], now)
  {
    hide Next, Cools, Quarantines, TimeSet, Run, TokenGiven;
    RowOverRun(cfg, ss, es, id, n);
  }

  /** Once quarantined, or switched off otherwise, an account is never leased again: nothing here switches it on. */
  lemma {:induction false} NeverLeasedAgain(cfg: L.Config, ss: seq<State>, es: seq<Event>, id: string, i: nat, j: nat)
    requires Run(cfg, ss, es) && i <= j < |es| && id in ss[i].rows
    requires !ss[i].rows[id].enabled || (i < j && Quarantines(cfg, ss[i], es[i], id))
    ensures !(es[j].Acquire? && es[j].id == id)
    ensures id in ss[j + 1].rows && !ss[j + 1].rows[id].enabled
    decreases j - i
  {
    hide Next, Quarantines, Cools, TimeSet, SwitchedOn;
    RowAfter(cfg, ss[i], es[i], ss[i + 1], id);
    LeasedIsEnabled(cfg, ss[i], es[i], ss[i + 1]);
    if i < j { NeverLeasedAgain(cfg, ss, es, id, i + 1, j); }
  }

  lemma LeasedIsEnabled(cfg: L.Config, s: State, e: Event, n: State)
    requires Next(cfg, s, e, n)
    ensures e.Acquire? ==> e.id in n.rows && L.AccountUsable(n.rows[e.id], e.now) && n.rows[e.id].enabled
  {
    hide L.Recounted, L.Attempted, L.Cooling;
  }

  /** With trimmed ids an account that has a proxy keeps it over every run. */
  lemma {:induction false} ProxyIsKept(cfg: L.Config, ss: seq<State>, es: seq<Event>, id: string, n: nat)
    requires Run(cfg, ss, es) && n < |ss| && L.TrimmedIds(ss[0].rows) && id in ss[0].rows && L.HasProxy(ss[0].rows[id])
    ensures L.TrimmedIds(ss[n].rows) && id in ss[n].rows
    ensures ss[n].rows[id].proxyUrl == ss[0].rows[id].proxyUrl && ss[n].rows[id].proxyMode == ss[0].rows[id].proxyMode
    decreases n
  {
    hide Next, L.TrimmedIds, TrimSpace;
    if n > 0 {
      ProxyIsKept(cfg, ss, es, id, n - 1);
      StepKeepsProxy(cfg, ss[n - 1], es[n - 1], ss[n], id);
    }
  }

  lemma StepKeepsProxy(cfg: L.Config, s: State, e: Event, n: State, id: string)
    requires Next(cfg, s, e, n) && L.TrimmedIds(s.rows) && id in s.rows && L.HasProxy(s.rows[id])
    ensures L.TrimmedIds(n.rows) && id in n.rows
    ensures n.rows[id].proxyUrl == s.rows[id].proxyUrl && n.rows[id].proxyMode == s.rows[id].proxyMode
  {
    RowAfter(cfg, s, e, n, id);
    OtherRow(cfg, s, e, n, id);
    if e.Acquire? || e.Miss? {
      AttemptKeeps(cfg, s, e, n, id);
    } else {
      hide Next, TrimSpace;
    }
  }

  lemma AttemptKeeps(cfg: L.Config, s: State, e: Event, n: State, id: string)
    requires Next(cfg, s, e, n) && L.TrimmedIds(s.rows) && id in s.rows && L.HasProxy(s.rows[id])
    requires e.Acquire? || e.Miss?
    ensures L.TrimmedIds(n.rows) && id in n.rows && n.rows[id] == s.rows[id]
  {
    hide TrimSpace, L.Recounted, L.SameCooling, L.HasProxy, L.TrimmedIds, SameButProxy, L.AccountUsable, L.Cooling;
  }

  // ---- when a cooling time stands ----

  /** No refresh of the account fails. */
  predicate RefreshesWell(es: seq<Event>, id: string) {
    forall i | 0 <= i < |es| :: !(es[i].RefreshFailed? && es[i].id == id)
  }

  /** Whatever follows without a failed refresh, the cooling time of the account is the same up to its end. */
  ghost predicate TimeStands(cfg: L.Config, s: State, id: string)
    requires id in s.rows
  {
    forall ss: seq<State>, es: seq<Event> |
      PairedRun(cfg, ss, es) && ss[0] == s && RefreshesWell(es, id) && ss[|es|].clock < s.rows[id].cooldownUntil ::
      id in ss[|es|].rows && ss[|es|].rows[id].cooldownUntil == s.rows[id].cooldownUntil
  }

  lemma {:induction false} ClockGoesOn(cfg: L.Config, ss: seq<State>, es: seq<Event>, i: nat)
    requires Run(cfg, ss, es) && i < |ss|
    ensures ss[i].clock <= ss[|es|].clock
    decreases |es| - i
  {
    if i < |es| {
      ClockStep(cfg, ss[i], es[i], ss[i + 1]);
      hide Next;
      ClockGoesOn(cfg, ss, es, i + 1);
    }
  }

  lemma ClockStep(cfg: L.Config, s: State, e: Event, n: State)
    requires Next(cfg, s, e, n)
    ensures s.clock <= n.clock
  {
    hide L.Recounted, L.HotAfter, L.CoolAfter, L.Attempted, L.RowsAfter, L.AccountUsable, L.Cooling, L.Returned, H.Promoted,
      H.ById, H.Reloaded, H.TopRows, H.Without, H.Only;
  }

  /** While the account cools and is not lent out, nobody leases it and nobody releases it. */
  lemma StepStands(cfg: L.Config, s: State, e: Event, n: State, id: string)
    requires Next(cfg, s, e, n) && Paired(s, e) && id in s.rows && id !in L.Accounts(s.loans)
    requires n.clock < s.rows[id].cooldownUntil && !(e.RefreshFailed? && e.id == id)
    ensures id in n.rows && n.rows[id].cooldownUntil == s.rows[id].cooldownUntil && id !in L.Accounts(n.loans)
  {
    hide SwitchedOn, Quarantines;
    SeenByCounts(cfg, s, e, n);
    RowAfter(cfg, s, e, n, id);
    LeasedIsEnabled(cfg, s, e, n);
    AcquireTime(cfg, s, e, n);
    LentOnlyByAcquire(s.hot, L.Accounts(s.loans), e, n.hot, L.Accounts(n.loans), id);
    hide Next, L.Accounts, Counts, TimeSet;
  }

  lemma AcquireTime(cfg: L.Config, s: State, e: Event, n: State)
    requires Next(cfg, s, e, n)
    ensures e.Acquire? ==> n.clock == e.now
  {
    hide L.Recounted, L.Attempted, L.AccountUsable, L.Cooling;
  }

  lemma LentOnlyByAcquire(h: Sel.Hot, lent: multiset<string>, e: Event, g: Sel.Hot, after: multiset<string>, id: string)
    requires Counts(h, lent, e, g, after) && id !in lent
    ensures id in after ==> e.Acquire? && e.id == id
  {
    hide H.ById, H.Reloaded, H.TopRows, H.Promoted, L.Recounted;
  }

  lemma {:induction false} UnlentStands(cfg: L.Config, ss: seq<State>, es: seq<Event>, id: string, n: nat)
    requires PairedRun(cfg, ss, es) && n < |ss| && id in ss[0].rows && id !in L.Accounts(ss[0].loans)
    requires ss[|es|].clock < ss[0].rows[id].cooldownUntil && RefreshesWell(es, id)
    ensures id in ss[n].rows && ss[n].rows[id].cooldownUntil == ss[0].rows[id].cooldownUntil
    ensures id !in L.Accounts(ss[n].loans)
    decreases n
  {
    hide Next, Paired, L.Accounts;
    if n > 0 {
      UnlentStands(cfg, ss, es, id, n - 1);
      ClockGoesOn(cfg, ss, es, n);
      StepStands(cfg, ss[n - 1], es[n - 1], ss[n], id);
    }
  }

  /** A loan that is out can change the time: at one of two moments its release sets another one. */
  lemma LentMoves(cfg: L.Config, s: State, id: string)
    requires id in s.rows && id in L.Accounts(s.loans) && s.clock + 1 < s.rows[id].cooldownUntil
    ensures !TimeStands(cfg, s, id)
  {
    L.AccountsHas(s.loans, id);
    var loan :| loan in s.loans && loan.account == id;
    var l, r := L.Lease(id, 0, "", "", "", "", loan.model, 1), L.Result(401, 0, false);
    var sec := L.CooldownSeconds(cfg, 401, 0, s.rows[id].failureCount + 1, 0);
    var now := if s.clock + sec != s.rows[id].cooldownUntil then s.clock else s.clock + 1;
    var n := Released(cfg, s, l, r, now, 0);
    UnauthorizedRow(cfg, s, l, now);
    ReleaseIsNext(cfg, s, l, r, now, 0);
    hide L.Accounts, L.CooldownSeconds, Released, Next, TimeStands;
    MovedByOne(cfg, s, Release(l, r, now, 0), n, id);
  }

  lemma MovedByOne(cfg: L.Config, s: State, e: Event, n: State, id: string)
    requires Next(cfg, s, e, n) && Paired(s, e) && id in s.rows && id in n.rows
    requires n.clock < s.rows[id].cooldownUntil != n.rows[id].cooldownUntil && !e.RefreshFailed?
    ensures !TimeStands(cfg, s, id)
  {
    hide Next, Paired;
    OneStep(cfg, s, e, n);
    var ss, es := [s, n], [e];
    assert PairedRun(cfg, ss, es) && ss[0] == s && ss[|es|] == n;
  }

  lemma UnauthorizedRow(cfg: L.Config, s: State, l: L.Lease, now: int)
    requires l.accountId in s.rows
    ensures var n := Released(cfg, s, l, L.Result(401, 0, false), now, 0);
      && n.clock == now && l.accountId in n.rows
      && n.rows[l.accountId].cooldownUntil
         == now + L.CooldownSeconds(cfg, 401, 0, s.rows[l.accountId].failureCount + 1, 0)
  {
    var r := L.Result(401, 0, false);
    ReleasedRow(cfg, s.rows, l, r, L.Until(cfg, s.rows, l, r, now, 0), l.accountId);
    hide L.CooldownSeconds, L.HotAfter, L.RowsAfter, L.CoolAfter, L.Quarantines, L.ErrorText;
  }

  lemma ReleaseIsNext(cfg: L.Config, s: State, l: L.Lease, r: L.Result, now: int, draw: nat)
    requires s.clock <= now && l.accountId != ""
    ensures Next(cfg, s, Release(l, r, now, draw), Released(cfg, s, l, r, now, draw))
  {
    hide L.Until, L.HotAfter, L.RowsAfter, L.CoolAfter;
  }

  lemma OneStep(cfg: L.Config, s: State, e: Event, n: State)
    requires Next(cfg, s, e, n) && Paired(s, e)
    ensures PairedRun(cfg, [s, n], [e])
  {
    hide Next, Paired;
  }

  /** As long as no refresh of the account fails, a cooling time stands to its end whatever happens if and only if the
      account is not lent out when it begins. */
  lemma CoolingStands(cfg: L.Config, s: State, id: string)
    requires id in s.rows && s.clock + 1 < s.rows[id].cooldownUntil
    ensures TimeStands(cfg, s, id) <==> id !in L.Accounts(s.loans)
  {
    hide Next, Paired, L.Accounts;
    if id in L.Accounts(s.loans) {
      LentMoves(cfg, s, id);
    } else {
      forall ss: seq<State>, es: seq<Event> |
        PairedRun(cfg, ss, es) && ss[0] == s && RefreshesWell(es, id) && ss[|es|].clock < s.rows[id].cooldownUntil
        ensures id in ss[|es|].rows && ss[|es|].rows[id].cooldownUntil == s.rows[id].cooldownUntil
      {
        UnlentStands(cfg, ss, es, id, |es|);
      }
    }
  }

  const DefaultConfig := L.Config(2, 30, 300, 3, 60, 180, 300, 20, 5, 0, false, false, false)

  /** A failed refresh needs no loan to change the time: an account cooling for longer is usable after the refresher's
      60 seconds. */
  lemma RefreshCutsShort(cfg: L.Config, s: State, id: string, until: int)
    requires id in s.rows && Sound(s.rows[id]) && s.rows[id].consecutiveUnauthorized < 4
    requires until == s.rows[id].cooldownUntil > s.clock + 60
    ensures var e := RefreshFailed(id, R.Policy(60, 900, 5), s.clock, "timeout");
      var n := s.(rows := Refreshed(s.rows, e));
      && Next(cfg, s, e, n) && Paired(s, e)
      && !L.AccountUsable(s.rows[id], s.clock + 60) && L.AccountUsable(n.rows[id], s.clock + 60)
  {
    hide R.Message;
  }

  /** Two loans on one account: a 403 cools it for 300 seconds, and a 401 then lets it go after 60. */
  lemma LaterTimeWins(s: State, l: L.Lease)
    requires l.accountId in s.rows && Sound(s.rows[l.accountId]) && s.rows[l.accountId].consecutiveUnauthorized < 4
    ensures var one := Released(DefaultConfig, s, l, L.Result(403, 0, false), s.clock, 60);
      var two := Released(DefaultConfig, one, l, L.Result(401, 0, false), s.clock, 12);
      && l.accountId in one.rows && !L.AccountUsable(one.rows[l.accountId], s.clock + 299)
      && l.accountId in two.rows && L.AccountUsable(two.rows[l.accountId], s.clock + 60)
  {
    var id, cfg := l.accountId, DefaultConfig;
    var r1, r2 := L.Result(403, 0, false), L.Result(401, 0, false);
    var one := Released(cfg, s, l, r1, s.clock, 60);
    var u1, u2 := L.Until(cfg, s.rows, l, r1, s.clock, 60), L.Until(cfg, one.rows, l, r2, s.clock, 12);
    DefaultTimes(s.rows[id].failureCount + 1);
    ReleasedRow(cfg, s.rows, l, r1, u1, id);
    hide L.HotAfter, L.RowsAfter, L.CoolAfter, L.ErrorText, L.CooldownSeconds;
    assert u1 == s.clock + 300 && one.rows[id].cooldownUntil == u1;
    DefaultTimes(one.rows[id].failureCount + 1);
    ReleasedRow(cfg, one.rows, l, r2, u2, id);
    assert u2 == s.clock + 60;
  }

  lemma DefaultTimes(failureCount: int)
    ensures L.CooldownSeconds(DefaultConfig, 403, 0, failureCount, 60) == 300
    ensures L.CooldownSeconds(DefaultConfig, 401, 0, failureCount, 12) == 60
  {
  }

  // ---- the cooling time of a model on an account ----

  /** The event sets the time of the model on the account. */
  predicate CoolsModel(cfg: L.Config, s: State, e: Event, id: string, model: string) {
    Fails(s, e, id) && e.l.model == model && L.ModelOnly(e.r.statusCode, model) && TimeSet(cfg, s, e) > 0
  }

  /** What one event does to the model on the account, from its time on. */
  lemma ModelAfter(cfg: L.Config, s: State, e: Event, n: State, id: string, model: string, w: int)
    requires Next(cfg, s, e, n) && id != "" && model != "" && w >= n.clock
    ensures L.Cooling(n.cool, id, model, w)
       <==> if CoolsModel(cfg, s, e, id, model) then w < TimeSet(cfg, s, e) else L.Cooling(s.cool, id, model, w)
  {
    if e.Release? {
      ReleasedModel(s.cool, s.rows, e.l, e.r, TimeSet(cfg, s, e), id, model, w);
      hide L.HotAfter, L.RowsAfter, L.CoolAfter, L.Cooling, L.Until, L.ModelOnly;
    } else {
      hide L.HotAfter, L.RowsAfter, L.CoolAfter, L.Cooling, L.Until, L.ModelOnly, L.Recounted, L.AccountUsable,
        L.KeepsProxies, L.TrimmedIds, SameButProxy, H.Promoted, H.ById, H.Reloaded, H.TopRows, H.Without, H.Only, L.Returned;
    }
  }

  lemma ReleasedModel(
    mc: L.ModelCool, t: Table, l: L.Lease, r: L.Result, until: int, id: string, model: string, w: int)
    requires id != "" && model != ""
    ensures L.Cooling(L.CoolAfter(mc, t, l, r, until), id, model, w)
       <==> if l.accountId == id && id in t && !r.success && l.model == model && L.ModelOnly(r.statusCode, model) && until > 0
            then w < until else L.Cooling(mc, id, model, w)
  {
    hide L.Cooling, L.SetModel, TrimSpace;
    if l.accountId != "" && l.model != "" { L.SetModelCools(mc, l.accountId, l.model, until, w); }
    BlankModel();
  }

  lemma BlankModel()
    ensures TrimSpace("") == ""
  {
  }

  /** The last time set for the model, or the one it came with; 0 for none. */
  function LastModelTime(cfg: L.Config, ss: seq<State>, es: seq<Event>, id: string, model: string, n: nat): int
    requires n < |ss| && n <= |es|
  {
    if n == 0 then (if id in ss[0].cool && model in ss[0].cool[id] then ss[0].cool[id][model] else 0)
    else if CoolsModel(cfg, ss[n - 1], es[n - 1], id, model) then TimeSet(cfg, ss[n - 1], es[n - 1])
    else LastModelTime(cfg, ss, es, id, model, n - 1)
  }

  /** Over every run: the model cools on the account at a time if and only if the last time set for it is later. */
  lemma {:induction false} ModelCoolsWhen(
    cfg: L.Config, ss: seq<State>, es: seq<Event>, id: string, model: string, n: nat, w: int)
    requires Run(cfg, ss, es) && n < |ss| && ss[0].clock >= 0 && ss[n].clock <= w && id != "" && model != ""
    ensures L.Cooling(ss[n].cool, id, model, w) <==> w < LastModelTime(cfg, ss, es, id, model, n)
    decreases n
  {
    hide Next, CoolsModel, TimeSet, L.Cooling;
    if n == 0 {
      CoolingNow(ss[0].cool, id, model, w);
    } else {
      ClockStep(cfg, ss[n - 1], es[n - 1], ss[n]);
      ModelAfter(cfg, ss[n - 1], es[n - 1], ss[n], id, model, w);
      ModelCoolsWhen(cfg, ss, es, id, model, n - 1, w);
    }
  }

  lemma CoolingNow(mc: L.ModelCool, id: string, model: string, w: int)
    requires id != "" && model != "" && w >= 0
    ensures L.Cooling(mc, id, model, w) <==> w < if id in mc && model in mc[id] then mc[id][model] else 0
  {
  }

  /** The model cools on the account up to `until` and no longer. */
  ghost predicate CoolsUntil(s: State, id: string, model: string, until: int) {
    forall w | w >= s.clock :: L.Cooling(s.cool, id, model, w) <==> w < until
  }

  ghost predicate ModelTimeStands(cfg: L.Config, s: State, id: string, model: string, until: int) {
    forall ss: seq<State>, es: seq<Event> | PairedRun(cfg, ss, es) && ss[0] == s && ss[|es|].clock < until ::
      CoolsUntil(ss[|es|], id, model, until)
  }

  lemma ModelStepStands(cfg: L.Config, s: State, e: Event, n: State, id: string, model: string, until: int)
    requires Next(cfg, s, e, n) && Paired(s, e) && id != "" && model != "" && n.clock < until
    requires CoolsUntil(s, id, model, until) && L.Loan(id, model) !in s.loans
    ensures CoolsUntil(n, id, model, until) && L.Loan(id, model) !in n.loans
  {
    hide Next, L.Cooling, CoolsModel;
    ClockStep(cfg, s, e, n);
    LoanFrom(cfg, s, e, n, L.Loan(id, model));
    if !CoolsModel(cfg, s, e, id, model) {
      forall w | w >= n.clock ensures L.Cooling(n.cool, id, model, w) <==> w < until {
        ModelAfter(cfg, s, e, n, id, model, w);
        assert L.Cooling(s.cool, id, model, w) <==> w < until;
      }
      assert L.Cooling(n.cool, id, model, n.clock);
    } else {
      CoolerIsLent(cfg, s, e, id, model);
    }
  }

  lemma CoolerIsLent(cfg: L.Config, s: State, e: Event, id: string, model: string)
    requires Paired(s, e) && CoolsModel(cfg, s, e, id, model)
    ensures L.Loan(id, model) in s.loans
  {
    hide TimeSet, L.ModelOnly;
  }

  /** A loan is new only when its account is leased for its model, which is not cooling then. */
  lemma LoanFrom(cfg: L.Config, s: State, e: Event, n: State, loan: L.Loan)
    requires Next(cfg, s, e, n)
    ensures loan in n.loans && loan !in s.loans ==> !L.Cooling(n.cool, loan.account, loan.model, n.clock)
  {
    hide L.HotAfter, L.RowsAfter, L.CoolAfter, L.Cooling, L.Until, L.Recounted, L.AccountUsable, L.Attempted,
      H.Promoted, H.ById, H.Reloaded, H.TopRows, H.Without, H.Only, L.Returned;
  }

  lemma {:induction false} UnlentModelStands(
    cfg: L.Config, ss: seq<State>, es: seq<Event>, id: string, model: string, until: int, n: nat)
    requires PairedRun(cfg, ss, es) && n < |ss| && id != "" && model != "" && ss[|es|].clock < until
    requires CoolsUntil(ss[0], id, model, until) && L.Loan(id, model) !in ss[0].loans
    ensures CoolsUntil(ss[n], id, model, until) && L.Loan(id, model) !in ss[n].loans
    decreases n
  {
    hide Next, Paired, CoolsUntil;
    if n > 0 {
      UnlentModelStands(cfg, ss, es, id, model, until, n - 1);
      ClockGoesOn(cfg, ss, es, n);
      ModelStepStands(cfg, ss[n - 1], es[n - 1], ss[n], id, model, until);
    }
  }

  lemma LentModelMoves(cfg: L.Config, s: State, id: string, model: string, until: int)
    requires id in s.rows && TrimSpace(model) != "" && 0 <= s.clock && s.clock + 1 < until
    requires L.Loan(id, model) in s.loans
    ensures !ModelTimeStands(cfg, s, id, model, until)
  {
    var l, r := L.Lease(id, 0, "", "", "", "", model, 1), L.Result(429, 0, false);
    var sec := L.CooldownSeconds(cfg, 429, 0, s.rows[id].failureCount + 1, 0);
    CooldownPositive(cfg, 429, 0, s.rows[id].failureCount + 1, 0);
    var now := if s.clock + sec != until then s.clock else s.clock + 1;
    var n, e := Released(cfg, s, l, r, now, 0), Release(l, r, now, 0);
    ReleaseIsNext(cfg, s, l, r, now, 0);
    BlankModel();
    var w := if now + sec < until then now + sec else until;
    LimitedTime(cfg, s, l, now);
    ModelAfter(cfg, s, e, n, id, model, w);
    ModelAfter(cfg, s, e, n, id, model, w - 1);
    hide Next, L.CooldownSeconds, Released, TrimSpace, L.Cooling, ModelTimeStands;
    ModelMovedByOne(cfg, s, e, n, id, model, until, w);
  }

  lemma LimitedTime(cfg: L.Config, s: State, l: L.Lease, now: int)
    requires l.accountId in s.rows && TrimSpace(l.model) != "" && now >= 0
    ensures var r := L.Result(429, 0, false);
      var e := Release(l, r, now, 0);
      && TimeSet(cfg, s, e) == now + L.CooldownSeconds(cfg, 429, 0, s.rows[l.accountId].failureCount + 1, 0)
      && CoolsModel(cfg, s, e, l.accountId, l.model) && Released(cfg, s, l, r, now, 0).clock == now
  {
    CooldownPositive(cfg, 429, 0, s.rows[l.accountId].failureCount + 1, 0);
    hide L.CooldownSeconds, L.HotAfter, L.RowsAfter, L.CoolAfter, TrimSpace;
  }

  lemma CooldownPositive(cfg: L.Config, code: nat, retryAfterNs: int, failureCount: int, draw: nat)
    ensures L.CooldownSeconds(cfg, code, retryAfterNs, failureCount, draw) >= 1
  {
    hide L.BaseCooldown;
  }

  lemma ModelMovedByOne(
    cfg: L.Config, s: State, e: Event, n: State, id: string, model: string, until: int, w: int)
    requires Next(cfg, s, e, n) && Paired(s, e) && n.clock < until && w >= n.clock
    requires !(L.Cooling(n.cool, id, model, w) <==> w < until)
    ensures !ModelTimeStands(cfg, s, id, model, until)
  {
    hide Next, Paired, L.Cooling;
    OneStep(cfg, s, e, n);
    var ss, es := [s, n], [e];
    assert PairedRun(cfg, ss, es) && ss[0] == s && ss[|es|] == n;
    assert !CoolsUntil(n, id, model, until);
  }

  /** A model's cooling time stands to its end, whatever happens, if and only if the account is not lent out for that
      model when it begins. */
  lemma ModelCoolingStands(cfg: L.Config, s: State, id: string, model: string, until: int)
    requires id in s.rows && TrimSpace(model) != "" && 0 <= s.clock && s.clock + 1 < until
    requires CoolsUntil(s, id, model, until)
    ensures ModelTimeStands(cfg, s, id, model, until) <==> L.Loan(id, model) !in s.loans
  {
    BlankModel();
    hide Next, Paired, TrimSpace, CoolsUntil;
    if L.Loan(id, model) in s.loans {
      LentModelMoves(cfg, s, id, model, until);
    } else {
      forall ss: seq<State>, es: seq<Event> | PairedRun(cfg, ss, es) && ss[0] == s && ss[|es|].clock < until
        ensures CoolsUntil(ss[|es|], id, model, until)
      {
        UnlentModelStands(cfg, ss, es, id, model, until, |es|);
      }
    }
  }

  /** Leaving the hot set forgets the count: back in, the account shows none of the calls still running. */
  lemma CountIsForgotten(cfg: L.Config, m: HotMeta, a: Account) returns (ss: seq<State>, es: seq<Event>)
    requires m.id != "" && m.inflight == 0 && a.id == m.id && L.AccountUsable(a, 0)
    ensures PairedRun(cfg, ss, es) && |ss| == 4 && Exact(ss[0], m.id) && m.id in ss[3].hot && !Exact(ss[3], m.id)
  {
    hide Next, L.Accounts, OneLoan, L.AccountUsable, PairedRun;
    var rows: Table := map[a.id := a];
    var idle := State(map[m.id := m], rows, map[], multiset{}, 0);
    var busy := State(map[m.id := m.(inflight := 1)], rows, map[], OneLoan(m), 0);
    var gone := State(map[], rows, map[], OneLoan(m), 0);
    var back := State(map[m.id := m], rows, map[], OneLoan(m), 0);
    FirstLoan(cfg, m, rows);
    LeaveAndReturn(cfg, m, rows);
    OneLoanCounts(m);
    es := [Acquire(m.id, "", 0), Demote([m.id]), Promote(m, 1, "")];
    ss := [idle, busy, gone, back];
    ThreeSteps(cfg, idle, es[0], busy, es[1], gone, es[2], back);
  }

  lemma ThreeSteps(cfg: L.Config, a: State, d: Event, b: State, e: Event, c: State, f: Event, g: State)
    requires Next(cfg, a, d, b) && Next(cfg, b, e, c) && Next(cfg, c, f, g)
    requires Paired(a, d) && Paired(b, e) && Paired(c, f)
    ensures PairedRun(cfg, [a, b, c, g], [d, e, f])
  {
    hide Next, Paired;
  }

  function OneLoan(m: HotMeta): multiset<L.Loan> {
    multiset{L.Loan(m.id, "")}
  }

  lemma OneLoanCounts(m: HotMeta)
    ensures L.Accounts(multiset{}) == multiset{} && L.Accounts(OneLoan(m))[m.id] == 1
  {
    L.AccountsWith(multiset{}, L.Loan(m.id, ""));
    assert multiset{} + OneLoan(m) == OneLoan(m);
  }

  lemma FirstLoan(cfg: L.Config, m: HotMeta, rows: Table)
    requires m.inflight == 0 && m.id in rows && L.AccountUsable(rows[m.id], 0)
    ensures Next(cfg, State(map[m.id := m], rows, map[], multiset{}, 0), Acquire(m.id, "", 0),
                 State(map[m.id := m.(inflight := 1)], rows, map[], OneLoan(m), 0))
  {
    L.AttemptedNothing(rows, map[], 0);
    hide L.Attempted, L.AccountUsable;
    assert multiset{} + OneLoan(m) == OneLoan(m);
  }

  lemma LeaveAndReturn(cfg: L.Config, m: HotMeta, rows: Table)
    requires m.id != "" && m.inflight == 0
    ensures var gone := State(map[], rows, map[], OneLoan(m), 0);
      && Next(cfg, State(map[m.id := m.(inflight := 1)], rows, map[], OneLoan(m), 0), Demote([m.id]), gone)
      && Next(cfg, gone, Promote(m, 1, ""), State(map[m.id := m], rows, map[], OneLoan(m), 0))
  {
    var none: Sel.Hot := map[];
    var busy: Sel.Hot := map[m.id := m.(inflight := 1)];
    assert H.Without(busy, [m.id]) == none;
    assert (none - {""})[m.id := m.(inflight := 0)] == map[m.id := m];
  }

  // ---- the manager and the index take these steps ----

  /** Time does not go back between attempts. */
  ghost predicate Rising(clock: L.Clock) {
    forall k: nat :: L.At(clock, k) <= L.At(clock, k + 1)
  }

  lemma {:induction false} LatestIsLast(clock: L.Clock, n: nat)
    requires Rising(clock) && n > 0
    ensures L.Latest(clock, n) == L.At(clock, n) >= L.At(clock, 1)
    decreases n
  {
    if n > 1 {
      LatestIsLast(clock, n - 1);
      assert L.At(clock, n - 1) <= L.At(clock, n - 1 + 1);
    }
  }

  /** An acquire is one event: a lease, or a miss. */
  method AcquireStep(
    m: L.Manager, stickyKey: string, model: string, clock: L.Clock, cancelFrom: nat, draws: nat -> L.Draws, ghost at: int)
    returns (r: L.Outcome, ghost e: Event, ghost to: int)
    requires m.Valid() && Rising(clock) && at <= L.At(clock, 1)
    modifies m`accounts, m`modelCool, m`leases, m.idx`hot, m.idx`ids, m.idx`pos, m.sel`rrCursor, m.sel.sticky
    ensures m.Valid() && Next(m.cfg, Of(old(m.Standing()), at), e, Of(m.Standing(), to))
    ensures r.Leased? ==> e == Acquire(r.lease.accountId, model, to)
  {
    ghost var tried;
    ghost var from := m.Standing();
    r, tried := m.Acquire(stickyKey, model, clock, cancelFrom, draws);
    to := L.At(clock, if r.Leased? then |tried| else |tried| + 1);
    e := if r.Leased? then Acquire(r.lease.accountId, model, to) else Miss(to);
    LatestIsLast(clock, |tried| + 1);
    if r.Leased? { LatestIsLast(clock, |tried|); }
    hide L.Recounted, L.Attempted, L.Cooling, L.AccountUsable, L.Latest, L.Distinct, L.UnderCap, L.TrimmedIds, H.Coherent;
  }

  /** A release is one event, and so is a release whose caller is gone. */
  method ReleaseStep(
    m: L.Manager, l: L.Lease, result: L.Result, cancelled: bool, now: int, draw: nat, ghost at: int)
    returns (ghost e: Event, ghost to: int)
    requires m.Valid() && !m.idx.closed && l.accountId != "" && at <= now
    modifies m`accounts, m`modelCool, m`leases, m.idx`hot, m.idx`ids, m.idx`pos, m.sel.sticky
    ensures m.Valid() && Next(m.cfg, Of(old(m.Standing()), at), e, Of(m.Standing(), to))
    ensures e == if cancelled then Cancel(l.accountId, l.model) else Release(l, result, now, draw)
  {
    ghost var from := Of(m.Standing(), at);
    ReleaseIsNext(m.cfg, from, l, result, now, draw);
    CancelIsNext(m.cfg, from, l.accountId, l.model);
    hide Next, L.HotAfter, L.RowsAfter, L.CoolAfter, L.StickyAfter, L.Until, L.Returned, H.Coherent, L.Bounded;
    var _ := m.Release(l, result, cancelled, now, draw);
    e, to := if cancelled then Cancel(l.accountId, l.model) else Release(l, result, now, draw), if cancelled then at else now;
  }

  lemma CancelIsNext(cfg: L.Config, s: State, id: string, model: string)
    ensures Next(cfg, s, Cancel(id, model), s.(hot := L.Returned(s.hot, id), loans := s.loans - multiset{L.Loan(id, model)}))
  {
    hide L.Returned;
  }

  /** What the index does on its own leaves the manager valid and is one event. */
  lemma IndexStep(m: L.Manager, was: Sel.Hot, e: Event, at: int)
    requires m.sel.idx == m.idx && m.idx.Valid() && m.sel.Valid() && m.cfg.maxAttempts >= 1
    requires L.Bounded(was, m.leases)
    requires Next(m.cfg, State(was, m.accounts, m.modelCool, m.leases, at), e, Of(m.Standing(), at))
    ensures m.Valid()
  {
    StepBounded(m.cfg, State(was, m.accounts, m.modelCool, m.leases, at), e, Of(m.Standing(), at));
    hide Next, L.Bounded, H.Coherent;
  }

  method PromoteStep(m: L.Manager, meta: HotMeta, ghost at: int) returns (r: H.Outcome<string>, ghost e: Event)
    requires m.Valid() && !m.idx.closed && meta.inflight <= 0 && meta.id != ""
    modifies m.idx`hot, m.idx`ids, m.idx`pos
    ensures m.Valid() && r.Done?
    ensures e == Promote(meta, m.idx.cap, r.value) && Next(m.cfg, Of(old(m.Standing()), at), e, Of(m.Standing(), at))
  {
    hide H.Promoted, L.Bounded, H.Coherent;
    r := m.idx.Promote(meta);
    e := Promote(meta, m.idx.cap, r.value);
    IndexStep(m, old(m.idx.hot), e, at);
  }

  method DemoteStep(m: L.Manager, gone: seq<string>, ghost at: int) returns (ghost e: Event)
    requires m.Valid() && !m.idx.closed
    modifies m.idx`hot, m.idx`ids, m.idx`pos
    ensures m.Valid() && e == Demote(gone) && Next(m.cfg, Of(old(m.Standing()), at), e, Of(m.Standing(), at))
  {
    hide H.Without, L.Bounded, H.Coherent;
    m.idx.DemoteMany(gone);
    e := Demote(gone);
    IndexStep(m, old(m.idx.hot), e, at);
  }

  method ResizeStep(m: L.Manager, n: int, ghost at: int) returns (ghost e: Event)
    requires m.Valid() && !m.idx.closed
    modifies m.idx`hot, m.idx`ids, m.idx`pos, m.idx`cap
    ensures m.Valid() && e == Resize(m.idx.ids) && Next(m.cfg, Of(old(m.Standing()), at), e, Of(m.Standing(), at))
  {
    hide H.Only, L.Bounded, H.Coherent;
    m.idx.Resize(n);
    e := Resize(m.idx.ids);
    IndexStep(m, old(m.idx.hot), e, at);
  }

  lemma ReloadIsNext(cfg: L.Config, d: L.Desk, at: int, listed: Table, now: int, cap: nat)
    ensures Next(cfg, Of(d, at), Reload(listed, now, cap),
                 Of(d.(hot := H.ById(H.Reloaded(listed, H.TopRows(listed, now, cap), d.hot))), at))
  {
    hide H.ById, H.Reloaded, H.TopRows;
  }

  method ReloadStep(m: L.Manager, listed: Table, now: int, ghost at: int) returns (ghost e: Event)
    requires m.Valid() && !m.idx.closed
    modifies m.idx`hot, m.idx`ids, m.idx`pos
    ensures m.Valid() && e == Reload(listed, now, m.idx.cap)
    ensures Next(m.cfg, Of(old(m.Standing()), at), e, Of(m.Standing(), at))
  {
    H.CoherentFacts(m.idx.hot, m.idx.ids, m.idx.pos, m.idx.cap);
    ReloadIsNext(m.cfg, m.Standing(), at, listed, now, m.idx.cap);
    hide Next, H.ById, H.Reloaded, H.TopRows, L.Bounded, H.Coherent;
    var _ := m.idx.LoadEligible(listed, now);
    e := Reload(listed, now, m.idx.cap);
    IndexStep(m, old(m.idx.hot), e, at);
  }

  /** What the refresher writes is one event too. */
  method RefreshFailedStep(m: L.Manager, p: R.DefaultPolicy, id: string, now: int, error: string, ghost at: int)
    returns (ghost e: Event)
    requires m.Valid() && at <= now
    modifies m`accounts
    ensures m.Valid() && e == RefreshFailed(id, p.Settings(), now, error)
    ensures Next(m.cfg, Of(old(m.Standing()), at), e, Of(m.Standing(), now))
  {
    hide R.FailedRow, L.Manager.Valid;
    p.OnRefreshFailure(m, id, now, error);
    e := RefreshFailed(id, p.Settings(), now, error);
  }

  method RefreshDoneStep(m: L.Manager, p: R.DefaultPolicy, id: string, ghost at: int) returns (ghost e: Event)
    requires m.Valid()
    modifies m`accounts
    ensures m.Valid() && e == RefreshDone(id) && Next(m.cfg, Of(old(m.Standing()), at), e, Of(m.Standing(), at))
  {
    hide R.SucceededRow, L.Manager.Valid;
    p.OnRefreshSuccess(m, id);
    e := RefreshDone(id);
  }

  method NewTokenStep(m: L.Manager, id: string, expectedRev: int, token: string, ghost at: int)
    returns (ok: bool, ghost e: Event)
    requires m.Valid()
    modifies m`accounts
    ensures m.Valid() && e == NewToken(id, token)
    ensures if ok then Next(m.cfg, Of(old(m.Standing()), at), e, Of(m.Standing(), at))
            else m.Standing() == old(m.Standing())
  {
    hide R.TokenRow, L.Manager.Valid;
    ok := R.UpdateTokens(m, id, expectedRev, token);
    e := NewToken(id, token);
  }
}
