/** The quota of one client token: reservations, settlements, refunds, and what they add up to. */
module Ledger {
  datatype Token = Token(enabled: bool, unlimited: bool, remain: int, used: int, requests: int)

  /** An amount below one counts as one. */
  function Units(amount: int): int {
    if amount <= 0 then 1 else amount
  }

  // ---- the guarded updates of a row ----

  predicate CanReserve(t: Token, amount: int) {
    t.enabled && (t.unlimited || t.remain >= Units(amount))
  }

  function Reserved(t: Token, amount: int): Token {
    if t.unlimited then t else t.(remain := t.remain - Units(amount))
  }

  function Refunded(t: Token, amount: int): Token {
    if t.unlimited then t else t.(remain := t.remain + Units(amount))
  }

  /** What a settlement takes beyond the reservation: all of the difference, or what is left. */
  function Extra(t: Token, reserved: int, actual: int): int {
    var delta := Units(actual) - Units(reserved);
    if delta <= 0 || t.unlimited then 0 else if t.remain >= delta then delta else t.remain
  }

  function Shortfall(t: Token, reserved: int, actual: int): int {
    var delta := Units(actual) - Units(reserved);
    if delta <= 0 || t.unlimited then 0 else delta - Extra(t, reserved, actual)
  }

  function Settled(t: Token, reserved: int, actual: int): Token {
    var delta := Units(actual) - Units(reserved);
    var back := if delta < 0 && !t.unlimited then -delta else 0;
    t.(used := t.used + Units(actual), requests := t.requests + 1,
       remain := if t.unlimited then t.remain else t.remain - Extra(t, reserved, actual) + back)
  }

  function Recorded(t: Token, cost: int): Token {
    Reserved(t, cost).(used := t.used + Units(cost), requests := t.requests + 1)
  }

  // ---- the books ----

  /** `open` are the reservations not ended yet; the others were settled, refunded, or leaked because the token was
      off when they ended, and `lost` is what leaked. */
  datatype Book = Book(
    grant: int, open: map<nat, int>, shortfall: int, lost: int, settled: set<nat>, refunded: set<nat>, leaked: set<nat>)

  function NewBook(grant: int): Book {
    Book(grant, map[], 0, 0, {}, {}, {})
  }

  function Known(b: Book): set<nat> {
    b.open.Keys + b.settled + b.refunded + b.leaked
  }

  /** A reservation has one fate. */
  ghost predicate OneFate(b: Book) {
    && b.open.Keys !! b.settled && b.open.Keys !! b.refunded && b.open.Keys !! b.leaked
    && b.settled !! b.refunded && b.settled !! b.leaked && b.refunded !! b.leaked
  }

  ghost function Sum(open: map<nat, int>): int {
    if open == map[] then 0 else
      var k :| k in open;
      open[k] + Sum(open - {k})
  }

  lemma {:induction false} SumWithout(open: map<nat, int>, k: nat)
    requires k in open
    ensures Sum(open) == open[k] + Sum(open - {k})
    decreases |open|
  {
    var j :| j in open && Sum(open) == open[j] + Sum(open - {j});
    if j != k {
      SmallerMap(open, j);
      SmallerMap(open, k);
      SumWithout(open - {j}, k);
      SumWithout(open - {k}, j);
      assert open - {j} - {k} == open - {k} - {j};
    }
  }

  lemma SmallerMap(open: map<nat, int>, k: nat)
    requires k in open
    ensures |open - {k}| < |open|
  {
    assert (open - {k}).Keys == open.Keys - {k};
    assert |(open - {k}).Keys| == |open - {k}| && |open| == |open.Keys|;
  }

  lemma SumWith(open: map<nat, int>, k: nat, amount: int)
    requires k !in open
    ensures Sum(open[k := amount]) == Sum(open) + amount
  {
    SumWithout(open[k := amount], k);
    assert open[k := amount] - {k} == open;
  }

  lemma {:induction false} SumNotNegative(open: map<nat, int>)
    requires forall k | k in open :: open[k] >= 0
    ensures Sum(open) >= 0
    decreases |open|
  {
    if open != map[] {
      var k :| k in open && Sum(open) == open[k] + Sum(open - {k});
      SmallerMap(open, k);
      SumNotNegative(open - {k});
    }
  }

  /** What is left, used, reserved and lost is what was granted and what was used beyond it. */
  ghost predicate Balanced(t: Token, b: Book) {
    && (forall k | k in b.open :: b.open[k] > 0)
    && b.shortfall >= 0 && b.lost >= 0 && OneFate(b)
    && (!t.unlimited ==>
          t.remain >= 0 && t.remain + t.used + Sum(b.open) + b.lost == b.grant + b.shortfall)
  }

  /** Steps on one token, by any requests in any order. */
  datatype Move =
    | Reserve(id: nat, amount: int)
    | Settle(id: nat, actual: int)
    | Refund(id: nat)
    | Record(cost: int)
    | Enable(on: bool)

  predicate Enabled(b: Book, m: Move) {
    match m
    case Reserve(id, _) => id !in Known(b)
    case Settle(id, _) => id in b.open
    case Refund(id) => id in b.open
    case _ => true
  }

  function TokenAfter(t: Token, b: Book, m: Move): Token
    requires Enabled(b, m)
  {
    match m
    case Reserve(_, amount) => if CanReserve(t, amount) then Reserved(t, amount) else t
    case Settle(id, actual) => if t.enabled then Settled(t, b.open[id], actual) else t
    case Refund(id) => if t.enabled then Refunded(t, b.open[id]) else t
    case Record(cost) => if CanReserve(t, cost) then Recorded(t, cost) else t
    case Enable(on) => t.(enabled := on)
  }

  function Leak(b: Book, id: nat): Book
    requires id in b.open
  {
    b.(open := b.open - {id}, leaked := b.leaked + {id}, lost := b.lost + b.open[id])
  }

  function BookAfter(t: Token, b: Book, m: Move): Book
    requires Enabled(b, m)
  {
    match m
    case Reserve(id, amount) => if CanReserve(t, amount) then b.(open := b.open[id := Units(amount)]) else b
    case Settle(id, actual) =>
      if t.enabled
      then b.(open := b.open - {id}, settled := b.settled + {id},
              shortfall := b.shortfall + Shortfall(t, b.open[id], actual))
      else Leak(b, id)
    case Refund(id) =>
      if t.enabled then b.(open := b.open - {id}, refunded := b.refunded + {id}) else Leak(b, id)
    case _ => b
  }

  lemma StepBalanced(t: Token, b: Book, m: Move)
    requires Balanced(t, b) && Enabled(b, m)
    ensures Balanced(TokenAfter(t, b, m), BookAfter(t, b, m))
  {
    match m
    case Reserve(id, amount) => SumWith(b.open, id, Units(amount));
    case Settle(id, _) => SumWithout(b.open, id);
    case Refund(id) => SumWithout(b.open, id);
    case _ =>
  }

  /** A refund or settlement with no reservation behind it makes quota out of nothing, except of an unlimited token. */
  lemma StrayEnd(t: Token, b: Book, reserved: int, actual: int)
    requires Balanced(t, b)
    ensures Balanced(Refunded(t, reserved), b) <==> t.unlimited
    ensures Balanced(Settled(t, reserved, actual), b) <==> t.unlimited
  {
  }

  predicate Legal(t: Token, b: Book, ms: seq<Move>)
    decreases |ms|
  {
    ms == [] || (Enabled(b, ms[0]) && Legal(TokenAfter(t, b, ms[0]), BookAfter(t, b, ms[0]), ms[1..]))
  }

  function Run(t: Token, b: Book, ms: seq<Move>): (Token, Book)
    requires Legal(t, b, ms)
    decreases |ms|
  {
    if ms == [] then (t, b) else Run(TokenAfter(t, b, ms[0]), BookAfter(t, b, ms[0]), ms[1..])
  }

  lemma {:induction false} RunBalanced(t: Token, b: Book, ms: seq<Move>)
    requires Balanced(t, b) && Legal(t, b, ms)
    ensures Balanced(Run(t, b, ms).0, Run(t, b, ms).1)
    decreases |ms|
  {
    hide Balanced;
    if ms != [] {
      StepBalanced(t, b, ms[0]);
      RunBalanced(TokenAfter(t, b, ms[0]), BookAfter(t, b, ms[0]), ms[1..]);
    }
  }

  predicate StaysOn(ms: seq<Move>) {
    forall i | 0 <= i < |ms| :: ms[i] != Enable(false)
  }

  lemma {:induction false} OnLosesNothing(t: Token, b: Book, ms: seq<Move>)
    requires t.enabled && StaysOn(ms) && Legal(t, b, ms)
    ensures Run(t, b, ms).1.lost == b.lost && Run(t, b, ms).1.grant == b.grant
    ensures Run(t, b, ms).0.unlimited == t.unlimited
    decreases |ms|
  {
    if ms != [] {
      assert ms[0] != Enable(false);
      OnLosesNothing(TokenAfter(t, b, ms[0]), BookAfter(t, b, ms[0]), ms[1..]);
    }
  }

  /** For a finite token that stays enabled, over every interleaving: nothing is created and nothing leaks. */
  lemma Conservation(grant: nat, ms: seq<Move>)
    requires Legal(Token(true, false, grant, 0, 0), NewBook(grant), ms) && StaysOn(ms)
    ensures var (t, b) := Run(Token(true, false, grant, 0, 0), NewBook(grant), ms);
      t.remain >= 0 && t.remain + t.used + Sum(b.open) == grant + b.shortfall
  {
    var t, b := Token(true, false, grant, 0, 0), NewBook(grant);
    assert Balanced(t, b);
    RunBalanced(t, b, ms);
    OnLosesNothing(t, b, ms);
  }

  /** Ending a reservation leaks it if and only if the token is off at that moment. */
  lemma LeaksWhenOff(t: Token, b: Book, m: Move)
    requires Balanced(t, b) && Enabled(b, m) && (m.Settle? || m.Refund?)
    ensures BookAfter(t, b, m).lost == b.lost <==> t.enabled
  {
  }
}
