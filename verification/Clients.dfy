/** The client token store, and the middleware that takes a slot, reserves quota, and ends both. */
module Clients {
  import opened Text
  import L = Ledger
  import R = RateGate

  datatype Error = NotFound | Disabled | QuotaExceeded | EmptyToken

  type Tokens = map<string, L.Token>
  type Books = map<string, L.Book>

  ghost predicate AllBalanced(tokens: Tokens, books: Books) {
    books.Keys == tokens.Keys && forall id | id in tokens :: L.Balanced(tokens[id], books[id])
  }

  lemma StepAll(tokens: Tokens, books: Books, id: string, m: L.Move)
    requires AllBalanced(tokens, books) && id in tokens && L.Enabled(books[id], m)
    ensures AllBalanced(tokens[id := L.TokenAfter(tokens[id], books[id], m)], books[id := L.BookAfter(tokens[id], books[id], m)])
  {
    hide L.Balanced;
    L.StepBalanced(tokens[id], books[id], m);
  }

  lemma OffBooks(tokens: Tokens, books: Books, id: string, row: L.Token)
    requires AllBalanced(tokens, books) && id in tokens
    ensures AllBalanced(tokens[id := row], books) <==> L.Balanced(row, books[id])
  {
    hide L.Balanced;
    assert tokens[id := row][id] == row;
  }

  lemma StrayEnds(tokens: Tokens, books: Books, id: string, reserved: int, actual: int)
    requires AllBalanced(tokens, books) && id in tokens
    ensures L.Balanced(tokens[id], books[id])
    ensures L.Balanced(L.Refunded(tokens[id], reserved), books[id]) <==> tokens[id].unlimited
    ensures L.Balanced(L.Settled(tokens[id], reserved, actual), books[id]) <==> tokens[id].unlimited
  {
    hide L.Balanced;
    L.StrayEnd(tokens[id], books[id], reserved, actual);
  }

  function Occupancy(inflight: map<string, int>, id: string): int {
    if id in inflight then inflight[id] else 0
  }

  ghost function Holders(slots: map<string, set<nat>>, id: string): set<nat> {
    if id in slots then slots[id] else {}
  }

  /** Each count is the number of calls that hold a slot. */
  ghost predicate SlotsCounted(inflight: map<string, int>, slots: map<string, set<nat>>) {
    forall id :: Occupancy(inflight, id) == |Holders(slots, id)|
  }

  lemma SlotTaken(inflight: map<string, int>, slots: map<string, set<nat>>, id: string, me: nat)
    requires SlotsCounted(inflight, slots) && me !in Holders(slots, id)
    ensures SlotsCounted(inflight[id := Occupancy(inflight, id) + 1], slots[id := Holders(slots, id) + {me}])
  {
    var next := slots[id := Holders(slots, id) + {me}];
    forall other ensures Occupancy(inflight[id := Occupancy(inflight, id) + 1], other) == |Holders(next, other)| {
      assert Occupancy(inflight, other) == |Holders(slots, other)|;
    }
  }

  /** A holder gives its slot back: the count is above zero before, so the floor is not needed. */
  lemma SlotGiven(inflight: map<string, int>, slots: map<string, set<nat>>, id: string, me: nat)
    requires SlotsCounted(inflight, slots) && me in Holders(slots, id)
    ensures Occupancy(inflight, id) > 0
    ensures var n := Occupancy(inflight, id) - 1;
      SlotsCounted(if n == 0 then inflight - {id} else inflight[id := n], slots[id := Holders(slots, id) - {me}])
  {
    var n := Occupancy(inflight, id) - 1;
    var counts, next := if n == 0 then inflight - {id} else inflight[id := n], slots[id := Holders(slots, id) - {me}];
    assert Occupancy(inflight, id) == |Holders(slots, id)|;
    forall other ensures Occupancy(counts, other) == |Holders(next, other)| {
      assert Occupancy(inflight, other) == |Holders(slots, other)|;
    }
  }

  lemma OccupancyFloor(inflight: map<string, int>, slots: map<string, set<nat>>, id: string)
    requires SlotsCounted(inflight, slots)
    ensures Occupancy(inflight, id) >= 0
  {
    assert Occupancy(inflight, id) == |Holders(slots, id)|;
  }

  /** A release by a call that holds no slot makes the count say less than there is, unless it finds nothing. */
  lemma StrayRelease(inflight: map<string, int>, slots: map<string, set<nat>>, id: string)
    requires SlotsCounted(inflight, slots)
    ensures var n := Occupancy(inflight, id) - 1;
      SlotsCounted(if n <= 0 then inflight - {id} else inflight[id := n], slots) <==> Occupancy(inflight, id) == 0
  {
    var n := Occupancy(inflight, id) - 1;
    var counts := if n <= 0 then inflight - {id} else inflight[id := n];
    assert Occupancy(inflight, id) == |Holders(slots, id)|;
    if n < 0 {
      forall other ensures Occupancy(counts, other) == |Holders(slots, other)| {
        assert Occupancy(inflight, other) == |Holders(slots, other)|;
      }
    } else {
      assert Occupancy(counts, id) == n;
    }
  }

  /** Where a reservation stands. */
  datatype Fate = Unknown | Open | Settled | Refunded | Leaked

  ghost function FateOf(books: Books, id: string, me: nat): Fate {
    if id !in books then Unknown
    else if me in books[id].open then Open
    else if me in books[id].settled then Settled
    else if me in books[id].refunded then Refunded
    else if me in books[id].leaked then Leaked
    else Unknown
  }

  /** The call has neither a reservation nor a slot anywhere yet. */
  ghost predicate Unseen(books: Books, slots: map<string, set<nat>>, me: nat) {
    forall id :: FateOf(books, id, me) == Unknown && me !in Holders(slots, id)
  }

  /** Others leave what belongs to a call alone. */
  ghost predicate Untouched(books: Books, slots: map<string, set<nat>>, nbooks: Books, nslots: map<string, set<nat>>, me: nat) {
    forall id ::
      && FateOf(nbooks, id, me) == FateOf(books, id, me) && (me in Holders(nslots, id) <==> me in Holders(slots, id))
      && (FateOf(books, id, me) == Open ==> nbooks[id].open[me] == books[id].open[me])
  }

  /** What somebody else may do that shows in the rows: switch a token, or record a use. */
  datatype Foreign = Switch(id: string, on: bool) | Use(id: string, cost: int)

  class Store {
    var tokens: Tokens
    var windows: map<string, R.Window>
    var inflight: map<string, int>
    ghost var books: Books
    ghost var slots: map<string, set<nat>>

    ghost predicate Valid()
      reads this
    {
      AllBalanced(tokens, books) && SlotsCounted(inflight, slots)
    }

    ghost function GateOf(id: string): R.Gate
      reads this`windows, this`inflight
    {
      R.Gate(if id in windows then Some(windows[id]) else None, Occupancy(inflight, id))
    }

    constructor (grants: map<string, nat>)
      ensures Valid() && tokens.Keys == grants.Keys && slots == map[] && inflight == map[] && windows == map[]
      ensures forall id | id in grants :: tokens[id] == L.Token(true, false, grants[id], 0, 0) && books[id] == L.NewBook(grants[id])
    {
      tokens := map id | id in grants :: L.Token(true, false, grants[id], 0, 0);
      windows, inflight := map[], map[];
      books, slots := map id | id in grants :: L.NewBook(grants[id]), map[];
    }

    // ---- slots and the rate limit ----

    method AcquireSlot(id: string, maxConcurrent: int, rpm: int, now: int, ghost me: nat) returns (v: Option<R.Verdict>)
      requires Valid() && me !in Holders(slots, id)
      modifies this`windows, this`inflight, this`slots
      ensures Valid()
      ensures v == if id == "" then None else Some(R.Decide(old(GateOf(id)), now, maxConcurrent, rpm))
      ensures GateOf(id) == if id == "" then old(GateOf(id)) else R.AfterAcquire(old(GateOf(id)), now, maxConcurrent, rpm)
      ensures forall other | other != id :: GateOf(other) == old(GateOf(other))
      ensures slots == if v == Some(R.Admitted) then old(slots)[id := Holders(old(slots), id) + {me}] else old(slots)
    {
      hide AllBalanced, SlotsCounted, Holders;
      if id == "" { return None; }
      var w := R.Window(now, 0);
      if rpm > 0 {
        if id in windows && now - windows[id].start < R.Minute { w := windows[id]; }
        windows := windows[id := w];
        if w.count >= rpm { return Some(R.RpmLimit); }
      }
      var cur := if id in inflight then inflight[id] else 0;
      if maxConcurrent > 0 && cur >= maxConcurrent { return Some(R.ConcurrencyLimit); }
      SlotTaken(inflight, slots, id, me);
      inflight := inflight[id := cur + 1];
      slots := slots[id := Holders(slots, id) + {me}];
      if rpm > 0 { windows := windows[id := w.(count := w.count + 1)]; }
      return Some(R.Admitted);
    }

    /** One less, with a floor at zero. Called once by each holder the count stays exact; any other call leaves it
        exact only where it finds nothing to take off. */
    method ReleaseSlot(id: string, ghost me: nat)
      requires Valid()
      modifies this`inflight, this`slots
      ensures GateOf(id) == if id == "" then old(GateOf(id)) else R.AfterRelease(old(GateOf(id)))
      ensures forall other | other != id :: GateOf(other) == old(GateOf(other))
      ensures slots == if id != "" && me in Holders(old(slots), id)
        then old(slots)[id := Holders(old(slots), id) - {me}] else old(slots)
      ensures Valid() <==> id == "" || me in Holders(old(slots), id) || old(Occupancy(inflight, id)) == 0
    {
      hide AllBalanced, SlotsCounted, Holders;
      if id == "" { return; }
      OccupancyFloor(inflight, slots, id);
      if me in Holders(slots, id) { SlotGiven(inflight, slots, id, me); } else { StrayRelease(inflight, slots, id); }
      if id in inflight && inflight[id] > 0 { inflight := inflight[id := inflight[id] - 1]; }
      if id !in inflight || inflight[id] == 0 { inflight := inflight - {id}; }
      ghost var n := Occupancy(old(inflight), id) - 1;
      assert n >= 0 ==> inflight == if n == 0 then old(inflight) - {id} else old(inflight)[id := n];
      assert n < 0 ==> inflight == old(inflight) - {id};
      if me in Holders(slots, id) { slots := slots[id := Holders(slots, id) - {me}]; }
    }

    // ---- quota: each call is one guarded update of one row ----

    method ReserveQuota(id: string, amount: int, ghost me: nat) returns (e: Option<Error>)
      requires Valid() && (id in books ==> me !in L.Known(books[id]))
      modifies this`tokens, this`books
      ensures Valid()
      ensures e == ReserveError(old(tokens), id, amount)
      ensures Moved(old(tokens), old(books), tokens, books, id, L.Reserve(me, amount))
    {
      hide SlotsCounted, L.Balanced, L.Reserved;
      if id !in tokens { return Some(NotFound); }
      var t := tokens[id];
      Enter(id, Some(L.Reserve(me, amount)), if L.CanReserve(t, amount) then L.Reserved(t, amount) else t);
      e := if L.CanReserve(t, amount) then None else if !t.enabled then Some(Disabled) else Some(QuotaExceeded);
    }

    /** The call has an open reservation of that amount. */
    ghost predicate Reserves(id: string, amount: int, me: nat)
      reads this`books
    {
      id in books && me in books[id].open && books[id].open[me] == L.Units(amount)
    }

    /** Ends a reservation; without one behind it, it makes quota out of nothing. */
    method RefundQuota(id: string, amount: int, ghost me: nat) returns (e: Option<Error>)
      requires Valid()
      modifies this`tokens, this`books
      ensures e == if id in old(tokens) && old(tokens)[id].enabled then None else Some(NotFound)
      ensures tokens == if e == None then old(tokens)[id := L.Refunded(old(tokens)[id], amount)] else old(tokens)
      ensures if old(Reserves(id, amount, me)) then Moved(old(tokens), old(books), tokens, books, id, L.Refund(me))
              else books == old(books)
      ensures Valid() <==> old(Reserves(id, amount, me)) || e.Some? || old(tokens)[id].unlimited
    {
      hide SlotsCounted, L.Balanced;
      if id !in tokens { return Some(NotFound); }
      var t := tokens[id];
      StrayEnds(tokens, books, id, amount, 0);
      ghost var m := if Reserves(id, amount, me) then Some(L.Refund(me)) else None;
      Enter(id, m, if t.enabled then L.Refunded(t, amount) else t);
      e := if t.enabled then None else Some(NotFound);
    }

    /** Ends a reservation with what was used. One that cannot take the whole difference takes what is left, and says
        so; one without a reservation behind it makes quota out of nothing. */
    method SettleUsage(id: string, reserved: int, actual: int, ghost me: nat) returns (e: Option<Error>)
      requires Valid()
      modifies this`tokens, this`books
      ensures e == if id !in old(tokens) then Some(NotFound) else if !old(tokens)[id].enabled then Some(Disabled)
        else if L.Shortfall(old(tokens)[id], reserved, actual) > 0 then Some(QuotaExceeded) else None
      ensures tokens == if id in old(tokens) && old(tokens)[id].enabled
        then old(tokens)[id := L.Settled(old(tokens)[id], reserved, actual)] else old(tokens)
      ensures if old(Reserves(id, reserved, me)) then Moved(old(tokens), old(books), tokens, books, id, L.Settle(me, actual))
              else books == old(books)
      ensures Valid() <==>
        old(Reserves(id, reserved, me)) || id !in old(tokens) || !old(tokens)[id].enabled || old(tokens)[id].unlimited
    {
      hide SlotsCounted, L.Balanced;
      if id !in tokens { return Some(NotFound); }
      var t := tokens[id];
      StrayEnds(tokens, books, id, reserved, actual);
      ghost var m := if Reserves(id, reserved, me) then Some(L.Settle(me, actual)) else None;
      if !t.enabled {
        Enter(id, m, t);
        return Some(Disabled);
      }
      var delta := L.Units(actual) - L.Units(reserved);
      var extra, shortfall := 0, false;
      if delta > 0 && !t.unlimited {
        if t.remain >= delta { extra := delta; } else { extra, shortfall := t.remain, true; }
      }
      var refund := if delta < 0 && !t.unlimited then -delta else 0;
      Enter(id, m, t.(used := t.used + L.Units(actual), requests := t.requests + 1,
                      remain := if t.unlimited then t.remain else t.remain - extra + refund));
      e := if shortfall then Some(QuotaExceeded) else None;
    }

    method RecordUsage(id: string, cost: int) returns (e: Option<Error>)
      requires Valid()
      modifies this`tokens, this`books
      ensures Valid()
      ensures e == ReserveError(old(tokens), id, cost)
      ensures Moved(old(tokens), old(books), tokens, books, id, L.Record(cost))
    {
      hide SlotsCounted, L.Balanced, L.Recorded;
      if id !in tokens { return Some(NotFound); }
      var t := tokens[id];
      Enter(id, Some(L.Record(cost)), if L.CanReserve(t, cost) then L.Recorded(t, cost) else t);
      e := if L.CanReserve(t, cost) then None else if !t.enabled then Some(Disabled) else Some(QuotaExceeded);
    }

    method SetEnabled(id: string, on: bool)
      requires Valid()
      modifies this`tokens, this`books
      ensures Valid() && Moved(old(tokens), old(books), tokens, books, id, L.Enable(on))
    {
      hide SlotsCounted, L.Balanced;
      if id in tokens { Enter(id, Some(L.Enable(on)), tokens[id].(enabled := on)); }
    }

    /** Any steps of other calls. Beyond what runs here, callers may rely on the contract only: it leaves out
        nothing other calls can do to rows, windows, slots and their own reservations. */
    method Others(events: seq<Foreign>, ghost me: nat)
      requires Valid()
      modifies this
      ensures Valid() && Untouched(old(books), old(slots), books, slots, me)
    {
      hide Valid, Untouched;
      SameUntouched(books, slots, me);
      for i := 0 to |events|
        invariant Valid() && Untouched(old(books), old(slots), books, slots, me)
      {
        ghost var was := books;
        match events[i] {
          case Switch(id, on) =>
            SetEnabled(id, on);
            StepUntouched(old(books), old(slots), was, books, slots, id, L.Enable(on), me);
          case Use(id, cost) =>
            var _ := RecordUsage(id, cost);
            StepUntouched(old(books), old(slots), was, books, slots, id, L.Record(cost), me);
        }
      }
    }

    /** Write a row, and the step it stands for, if any, into the books. */
    method Enter(id: string, ghost m: Option<L.Move>, row: L.Token)
      requires Valid() && id in tokens
      requires m.Some? ==> L.Enabled(books[id], m.value) && row == L.TokenAfter(tokens[id], books[id], m.value)
      modifies this`tokens, this`books
      ensures tokens == old(tokens)[id := row]
      ensures m.Some? ==> Valid() && Moved(old(tokens), old(books), tokens, books, id, m.value)
      ensures m.None? ==> books == old(books) && (Valid() <==> L.Balanced(row, books[id]))
    {
      hide SlotsCounted, L.Balanced, L.Known;
      if m.Some? { StepAll(tokens, books, id, m.value); } else { OffBooks(tokens, books, id, row); }
      tokens := tokens[id := row];
      if m.Some? { books := books[id := L.BookAfter(old(tokens)[id], books[id], m.value)]; }
    }
  }

  function ReserveError(tokens: Tokens, id: string, amount: int): Option<Error> {
    if id !in tokens then Some(NotFound)
    else if L.CanReserve(tokens[id], amount) then None
    else if !tokens[id].enabled then Some(Disabled) else Some(QuotaExceeded)
  }

  /** The rows and the books after one step on one token; nothing else changes. */
  ghost predicate Moved(was: Tokens, wasBooks: Books, now: Tokens, nowBooks: Books, id: string, m: L.Move) {
    if id !in was then now == was && nowBooks == wasBooks
    else
      && id in wasBooks && L.Enabled(wasBooks[id], m)
      && now == was[id := L.TokenAfter(was[id], wasBooks[id], m)]
      && nowBooks == wasBooks[id := L.BookAfter(was[id], wasBooks[id], m)]
  }

  lemma SameUntouched(books: Books, slots: map<string, set<nat>>, me: nat)
    ensures Untouched(books, slots, books, slots, me)
  {
  }

  lemma StepUntouched(
    books: Books, slots: map<string, set<nat>>, was: Books, now: Books, held: map<string, set<nat>>, id: string,
    m: L.Move, me: nat)
    requires Untouched(books, slots, was, held, me) && (m.Enable? || m.Record?)
    requires exists t, u :: Moved(t, was, u, now, id, m)
    ensures Untouched(books, slots, now, held, me)
  {
    var t, u :| Moved(t, was, u, now, id, m);
    assert forall other :: FateOf(now, other, me) == FateOf(was, other, me);
  }

  // ---- the middleware ----

  datatype AuthInfo = AuthInfo(tokenId: string, maxConcurrent: int, rpm: int)

  datatype Auth = Known(info: AuthInfo) | Rejected(why: AuthError)

  datatype AuthError = BadKey | KeyDisabled | KeyExpired | KeyEmpty

  /** What the wrapped handler did; the cost is read from the response when it reports its usage. */
  datatype Handled = Answered(code: int, cost: Option<int>) | Panicked

  datatype Reply = Refused(status: int) | Served(handled: Handled)

  function AuthStatus(why: AuthError): int {
    match why
    case BadKey => 401
    case KeyDisabled => 403
    case KeyExpired => 403
    case KeyEmpty => 402
  }

  /** How the reservation of a call ended: one way, unless the handler never returned to settle it. */
  ghost predicate Ended(fate: Fate, reply: Reply) {
    match reply
    case Refused(_) => fate == Unknown
    case Served(Panicked) => fate == Open
    case Served(Answered(code, _)) => fate == Leaked || fate == if 200 <= code < 500 then Settled else Refunded
  }

  /** A call has its one unit with token `id` standing as `fate` says, its slot there or not, and nothing elsewhere. */
  ghost predicate Stands(books: Books, slots: map<string, set<nat>>, id: string, me: nat, fate: Fate, holds: bool) {
    forall other ::
      if other == id then
        && FateOf(books, id, me) == fate && (me in Holders(slots, id) <==> holds)
        && (fate == Open ==> books[id].open[me] == 1)
      else FateOf(books, other, me) == Unknown && me !in Holders(slots, other)
  }

  lemma StandsKept(
    books: Books, slots: map<string, set<nat>>, nbooks: Books, nslots: map<string, set<nat>>, id: string, me: nat,
    fate: Fate, holds: bool)
    requires Stands(books, slots, id, me, fate, holds) && Untouched(books, slots, nbooks, nslots, me)
    ensures Stands(nbooks, nslots, id, me, fate, holds)
  {
    hide Holders;
    assert FateOf(books, id, me) == fate;
  }

  lemma StandsSlot(books: Books, slots: map<string, set<nat>>, id: string, me: nat, fate: Fate, holds: bool)
    requires Stands(books, slots, id, me, fate, holds)
    ensures Stands(books, slots[id := Holders(slots, id) + {me}], id, me, fate, true)
    ensures Stands(books, slots[id := Holders(slots, id) - {me}], id, me, fate, false)
  {
    hide FateOf;
  }

  lemma StandsReserved(
    t: Tokens, books: Books, u: Tokens, next: Books, slots: map<string, set<nat>>, id: string, me: nat, holds: bool)
    requires Stands(books, slots, id, me, Unknown, holds) && Moved(t, books, u, next, id, L.Reserve(me, 1))
    ensures Stands(next, slots, id, me, if ReserveError(t, id, 1) == None then Open else Unknown, holds)
  {
    hide Holders;
    assert FateOf(books, id, me) == Unknown;
    forall other | other != id ensures FateOf(next, other, me) == FateOf(books, other, me) {}
  }

  lemma StandsEnded(
    t: Tokens, books: Books, u: Tokens, next: Books, slots: map<string, set<nat>>, id: string, me: nat, holds: bool,
    m: L.Move)
    requires Stands(books, slots, id, me, Open, holds) && AllBalanced(t, books) && id in t
    requires Moved(t, books, u, next, id, m) && (m.Refund? || m.Settle?) && m.id == me
    ensures Stands(next, slots, id, me, if !t[id].enabled then Leaked else if m.Settle? then Settled else Refunded, holds)
  {
    hide Holders;
    assert FateOf(books, id, me) == Open && L.Balanced(t[id], books[id]);
    forall other | other != id ensures FateOf(next, other, me) == FateOf(books, other, me) {}
  }

  lemma StandsMeans(books: Books, slots: map<string, set<nat>>, id: string, me: nat, fate: Fate, holds: bool)
    requires Stands(books, slots, id, me, fate, holds)
    ensures FateOf(books, id, me) == fate && (me in Holders(slots, id) <==> holds)
    ensures forall other | other != id :: FateOf(books, other, me) == Unknown && me !in Holders(slots, other)
    ensures fate == Unknown && id in books ==> me !in L.Known(books[id])
    ensures fate == Open ==> id in books && me in books[id].open && books[id].open[me] == 1
  {
  }

  /** Settle or refund the unit of a call that was answered. */
  method EndCall(store: Store, id: string, code: int, cost: Option<int>, ghost me: nat)
    requires store.Valid() && Stands(store.books, store.slots, id, me, Open, true)
    modifies store`tokens, store`books
    ensures store.Valid()
    ensures exists fate :: Stands(store.books, store.slots, id, me, fate, true) && Ended(fate, Served(Answered(code, cost)))
  {
    hide Stands, Moved, L.Balanced, SlotsCounted, FateOf;
    StandsMeans(store.books, store.slots, id, me, Open, true);
    ghost var t, books := store.tokens, store.books;
    ghost var on := t[id].enabled;
    if 200 <= code < 500 {
      var actual := if cost.Some? then cost.value else 1;
      var _ := store.SettleUsage(id, 1, actual, me);
      StandsEnded(t, books, store.tokens, store.books, store.slots, id, me, true, L.Settle(me, actual));
    } else {
      var _ := store.RefundQuota(id, 1, me);
      StandsEnded(t, books, store.tokens, store.books, store.slots, id, me, true, L.Refund(me));
    }
  }

  /** One call through the token gate; others act at every gap. */
  method RequireClient(
    store: Store, auth: Auth, now: int, gaps: nat -> seq<Foreign>, handled: Handled, ghost me: nat)
    returns (reply: Reply)
    requires store.Valid() && Unseen(store.books, store.slots, me)
    modifies store
    ensures store.Valid() && forall id :: me !in Holders(store.slots, id)
    ensures forall id ::
      if auth.Known? && id == auth.info.tokenId then Ended(FateOf(store.books, id, me), reply)
      else FateOf(store.books, id, me) == Unknown
    ensures reply.Served? ==> reply.handled == handled
    ensures auth.Rejected? ==> reply == Refused(AuthStatus(auth.why))
    ensures auth.Known? ==>
      if Admits(old(store.GateOf(auth.info.tokenId)), auth.info, now)
      then reply.Served? || reply.status == 402 || reply.status == 401
      else reply == Refused(503)
  {
    match auth
    case Rejected(why) => reply := Refused(AuthStatus(why));
    case Known(info) =>
      ghost var fate;
      reply, fate := ServeKnown(store, info, now, gaps, handled, me);
      StandsMeans(store.books, store.slots, info.tokenId, me, fate, false);
  }

  /** The slot and the rate limit are the first things a known caller meets. */
  predicate Admits(g: R.Gate, info: AuthInfo, now: int) {
    info.tokenId != "" && R.Decide(g, now, info.maxConcurrent, info.rpm) == R.Admitted
  }

  method ServeKnown(
    store: Store, info: AuthInfo, now: int, gaps: nat -> seq<Foreign>, handled: Handled, ghost me: nat)
    returns (reply: Reply, ghost fate: Fate)
    requires store.Valid() && Unseen(store.books, store.slots, me)
    modifies store
    ensures store.Valid() && Stands(store.books, store.slots, info.tokenId, me, fate, false) && Ended(fate, reply)
    ensures reply.Served? ==> reply.handled == handled
    ensures if Admits(old(store.GateOf(info.tokenId)), info, now)
      then reply.Served? || reply.status == 402 || reply.status == 401
      else reply == Refused(503)
  {
    hide Stands, Moved, Untouched, AllBalanced, SlotsCounted, FateOf, Holders, ReserveError, R.Decide, R.AfterAcquire;
    var id := info.tokenId;
    fate := Unknown;
    UnseenStands(store.books, store.slots, id, me);
    var v := store.AcquireSlot(id, info.maxConcurrent, info.rpm, now, me);
    if v != Some(R.Admitted) { return Refused(503), fate; }
    StandsSlot(store.books, old(store.slots), id, me, fate, false);
    Gap(store, gaps(0), id, me, fate);
    StandsMeans(store.books, store.slots, id, me, fate, true);
    ghost var t, books := store.tokens, store.books;
    var e := store.ReserveQuota(id, 1, me);
    StandsReserved(t, books, store.tokens, store.books, store.slots, id, me, true);
    if e != None {
      GiveSlot(store, id, me, fate);
      return Refused(if e.value == QuotaExceeded then 402 else 401), fate;
    }
    fate := Open;
    Gap(store, gaps(1), id, me, fate);
    if handled.Answered? {
      EndCall(store, id, handled.code, handled.cost, me);
      fate :| Stands(store.books, store.slots, id, me, fate, true) && Ended(fate, Served(handled));
      Gap(store, gaps(2), id, me, fate);
    }
    GiveSlot(store, id, me, fate);
    reply := Served(handled);
  }

  method Gap(store: Store, events: seq<Foreign>, id: string, ghost me: nat, ghost fate: Fate)
    requires store.Valid() && Stands(store.books, store.slots, id, me, fate, true)
    modifies store
    ensures store.Valid() && Stands(store.books, store.slots, id, me, fate, true)
  {
    hide Stands, Untouched, AllBalanced, SlotsCounted;
    ghost var books, slots := store.books, store.slots;
    store.Others(events, me);
    StandsKept(books, slots, store.books, store.slots, id, me, fate, true);
  }

  method GiveSlot(store: Store, id: string, ghost me: nat, ghost fate: Fate)
    requires store.Valid() && Stands(store.books, store.slots, id, me, fate, true) && id != ""
    modifies store
    ensures store.Valid() && Stands(store.books, store.slots, id, me, fate, false)
  {
    hide Stands, AllBalanced, SlotsCounted, FateOf;
    StandsMeans(store.books, store.slots, id, me, fate, true);
    StandsSlot(store.books, store.slots, id, me, fate, true);
    store.ReleaseSlot(id, me);
  }

  lemma UnseenStands(books: Books, slots: map<string, set<nat>>, id: string, me: nat)
    requires Unseen(books, slots, me)
    ensures Stands(books, slots, id, me, Unknown, false) && me !in Holders(slots, id)
  {
    hide FateOf, Holders;
  }
}
