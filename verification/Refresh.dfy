/** What the background refresher writes to the accounts: failed refreshes cool and quarantine, successful ones clear. */
module Refresh {
  import opened Text
  import opened Catalog
  import L = Lease

  datatype Policy = Policy(cooldownSec: int, cooldownCapSec: int, quarantineAfter: int)

  /** What a zero or negative setting stands for is 60 seconds, no cap, and five failures. */
  function Cooldown(p: Policy): int {
    var cool := if p.cooldownSec <= 0 then 60 else p.cooldownSec;
    if p.cooldownCapSec > 0 && cool > p.cooldownCapSec then p.cooldownCapSec else cool
  }

  function Threshold(p: Policy): int {
    if p.quarantineAfter <= 0 then 5 else p.quarantineAfter
  }

  function Message(error: string): string {
    var msg := "refresh failed: " + error;
    if |msg| > 240 then msg[..240] else msg
  }

  predicate Quarantines(p: Policy, a: Account) {
    a.consecutiveUnauthorized + 1 >= Threshold(p)
  }

  function FailedRow(p: Policy, a: Account, now: int, error: string): Account {
    var q := Quarantines(p, a);
    a.(failureCount := a.failureCount + 1, consecutiveUnauthorized := a.consecutiveUnauthorized + 1,
       cooldownUntil := now + Cooldown(p), lastError := Message(error), revision := a.revision + 1,
       enabled := a.enabled && !q, lifecycle := if q then LifecycleQuarantined else a.lifecycle)
  }

  function SucceededRow(a: Account): Account {
    a.(consecutiveUnauthorized := 0, lastError := "", revision := a.revision + 1)
  }

  function TokenRow(a: Account, token: string): Account {
    a.(accessToken := token, revision := a.revision + 1)
  }

  /** The row after failed refreshes, one after the other, at the given times. */
  function AfterFailures(p: Policy, a: Account, times: seq<int>, error: string): Account {
    if times == [] then a
    else var n := |times| - 1; FailedRow(p, AfterFailures(p, a, times[..n], error), times[n], error)
  }

  /** Failed refreshes in a row: the account stays on exactly as long as they and the refusals counted before are
      fewer than the threshold; the last one's cooling time is the one that holds. */
  lemma {:induction false} FailuresInARow(p: Policy, a: Account, times: seq<int>, error: string)
    requires times != []
    ensures var r := AfterFailures(p, a, times, error);
      && r.consecutiveUnauthorized == a.consecutiveUnauthorized + |times|
      && (r.enabled <==> a.enabled && a.consecutiveUnauthorized + |times| < Threshold(p))
      && r.cooldownUntil == times[|times| - 1] + Cooldown(p)
  {
    hide Threshold, Cooldown, Message;
    var n := |times| - 1;
    if n > 0 {
      FailuresInARow(p, a, times[..n], error);
    } else {
      assert AfterFailures(p, a, times[..0], error) == a;
    }
  }

  class DefaultPolicy {
    const cooldownSec: int
    const cooldownCapSec: int
    const quarantineAfter: int

    function Settings(): Policy {
      Policy(cooldownSec, cooldownCapSec, quarantineAfter)
    }

    constructor (cooldown: int, cap: int, quarantine: int)
      ensures Settings() == Policy(cooldown, cap, quarantine)
    {
      cooldownSec, cooldownCapSec, quarantineAfter := cooldown, cap, quarantine;
    }

    /** A failed refresh: the row is written whatever it said before; hot entries and model times are left alone. */
    method OnRefreshFailure(m: L.Manager, id: string, now: int, error: string)
      requires m.Valid()
      modifies m`accounts
      ensures m.Valid()
      ensures m.accounts == if id in old(m.accounts)
        then PutRow(old(m.accounts), FailedRow(Settings(), old(m.accounts)[id], now, error)) else old(m.accounts)
    {
      hide L.Manager.Valid, FailedRow;
      if id == "" || id !in m.accounts { return; }
      var row := Patched(m.accounts[id], now, error);
      m.PatchRow(row);
    }

    method Patched(cur: Account, now: int, error: string) returns (row: Account)
      ensures row == FailedRow(Settings(), cur, now, error) && row.id == cur.id
    {
      var cool := cooldownSec;
      if cool <= 0 { cool := 60; }
      if cooldownCapSec > 0 && cool > cooldownCapSec { cool := cooldownCapSec; }
      var cu := cur.consecutiveUnauthorized + 1;
      var msg := "refresh failed: " + error;
      if |msg| > 240 { msg := msg[..240]; }
      row := cur.(failureCount := cur.failureCount + 1, cooldownUntil := now + cool, lastError := msg,
                  consecutiveUnauthorized := cu, revision := cur.revision + 1);
      var threshold := if quarantineAfter <= 0 then 5 else quarantineAfter;
      if cu >= threshold { row := row.(lifecycle := LifecycleQuarantined, enabled := false); }
    }

    /** A refresh that worked out: the refusals are forgotten, the cooling time is not. */
    method OnRefreshSuccess(m: L.Manager, id: string)
      requires m.Valid()
      modifies m`accounts
      ensures m.Valid()
      ensures m.accounts == if id in old(m.accounts)
        then PutRow(old(m.accounts), SucceededRow(old(m.accounts)[id])) else old(m.accounts)
    {
      hide L.Manager.Valid;
      if id == "" || id !in m.accounts { return; }
      m.PatchRow(SucceededRow(m.accounts[id]));
    }
  }

  /** New tokens are written if the row is still the one they were asked for. */
  method UpdateTokens(m: L.Manager, id: string, expectedRev: int, token: string) returns (ok: bool)
    requires m.Valid()
    modifies m`accounts
    ensures m.Valid()
    ensures ok <==> id in old(m.accounts) && old(m.accounts)[id].revision == expectedRev >= 1 && token != ""
    ensures m.accounts == if ok then PutRow(old(m.accounts), TokenRow(old(m.accounts)[id], token)) else old(m.accounts)
  {
    hide L.Manager.Valid;
    if id == "" || token == "" || expectedRev < 1 { return false; }
    if id !in m.accounts || m.accounts[id].revision != expectedRev { return false; }
    m.PatchRow(TokenRow(m.accounts[id], token));
    return true;
  }
}
