/** The sticky LRU: session key -> primary/secondary account, with a sliding expiry, a recency list,
    an item map, and a reverse index from accounts to keys. */
module StickyLru {

  datatype Entry = Entry(key: string, primary: string, secondary: string, expiresAt: int)

  // ---- the simple thing it speeds up: a list of entries, most recently used first ----

  function Without(es: seq<Entry>, key: string): seq<Entry> {
    if es == [] then []
    else if es[0].key == key then Without(es[1..], key)
    else [es[0]] + Without(es[1..], key)
  }

  /** `e` takes the place of the entry with its key. */
  function Replace(es: seq<Entry>, e: Entry): seq<Entry> {
    if es == [] then [] else [if es[0].key == e.key then e else es[0]] + Replace(es[1..], e)
  }

  predicate Has(es: seq<Entry>, key: string) {
    exists i | 0 <= i < |es| :: es[i].key == key
  }

  function Find(es: seq<Entry>, key: string): (e: Entry)
    requires Has(es, key)
    ensures e in es && e.key == key
  {
    if es[0].key == key then es[0] else Find(es[1..], key)
  }

  /** `e` becomes the entry for its key and the most recently used. */
  function Touch(es: seq<Entry>, e: Entry): seq<Entry> {
    [e] + Without(es, e.key)
  }

  predicate Mentions(e: Entry, account: string) {
    account != "" && (e.primary == account || e.secondary == account)
  }

  /** Every mention of `account` goes: entries whose primary it is, and secondaries equal to it. */
  function DropAccount(es: seq<Entry>, account: string): seq<Entry> {
    if es == [] then []
    else if es[0].primary == account then DropAccount(es[1..], account)
    else [if es[0].secondary == account then es[0].(secondary := "") else es[0]] + DropAccount(es[1..], account)
  }

  predicate Expired(e: Entry, now: int) {
    0 < e.expiresAt <= now
  }

  /** The entry after its primary becomes `account`; with `shift` the old primary may move to secondary. */
  function Rebind(e: Entry, account: string, shift: bool): Entry {
    if e.primary == account then e
    else e.(primary := account,
            secondary := if !shift then e.secondary
                         else if e.secondary == account then ""
                         else if e.secondary == "" then e.primary
                         else e.secondary)
  }

  function AfterGet(es: seq<Entry>, now: int, ttl: int, key: string): seq<Entry> {
    if key == "" || !Has(es, key) then es
    else if Expired(Find(es, key), now) then Without(es, key)
    else Touch(es, Find(es, key).(expiresAt := now + ttl))
  }

  function AfterPutPrimary(es: seq<Entry>, max: nat, now: int, ttl: int, key: string, account: string, shift: bool): seq<Entry>
    requires max > 0
  {
    if key == "" || account == "" then es
    else if Has(es, key) then Touch(es, Rebind(Find(es, key), account, shift).(expiresAt := now + ttl))
    else [Entry(key, account, "", now + ttl)] + if |es| < max then es else es[..max - 1]
  }

  function AfterPutSecondary(es: seq<Entry>, now: int, ttl: int, key: string, account: string): seq<Entry> {
    if key == "" || account == "" || !Has(es, key) then es
    else
      var e := Find(es, key);
      Touch(es, e.(secondary := if e.primary == account then "" else account, expiresAt := now + ttl))
  }

  /** What becomes of the old primary when another account takes its place: it is kept as secondary if and only if
      there was no secondary before. A secondary that moves up leaves its place empty, and the old primary is gone. */
  lemma OldPrimary(es: seq<Entry>, max: nat, now: int, ttl: int, key: string, account: string)
    requires max > 0 && key != "" && account != "" && Has(es, key)
    requires var e := Find(es, key); e.primary != account && e.primary != "" && e.primary != e.secondary
    ensures var e, r := Find(es, key), AfterPutPrimary(es, max, now, ttl, key, account, true);
      && r != [] && r[0].key == key && r[0].primary == account && r[0].expiresAt == now + ttl
      && (r[0].secondary == e.primary <==> e.secondary == "")
      && (e.secondary == account ==> r[0] == Entry(key, account, "", now + ttl))
      && (e.secondary != "" && e.secondary != account ==> r[0].secondary == e.secondary)
  {
    hide Find, Without, Has;
  }

  // ---- the reverse index ----

  type Index = map<string, set<string>>

  predicate Pair(idx: Index, account: string, key: string) {
    account in idx && key in idx[account]
  }

  ghost predicate NoEmptySets(idx: Index) {
    forall a | a in idx :: idx[a] != {}
  }

  function AddPair(idx: Index, account: string, key: string): (r: Index)
    ensures NoEmptySets(idx) ==> NoEmptySets(r)
    ensures forall a, k :: Pair(r, a, k) <==> Pair(idx, a, k) || (account != "" && a == account && k == key)
  {
    if account == "" then idx
    else idx[account := (if account in idx then idx[account] else {}) + {key}]
  }

  function RemovePair(idx: Index, account: string, key: string): (r: Index)
    ensures NoEmptySets(idx) ==> NoEmptySets(r)
    ensures forall a, k :: Pair(r, a, k) <==> Pair(idx, a, k) && !(a == account && k == key)
  {
    assert account in idx ==> forall k | k in idx[account] && k != key :: k in idx[account] - {key};
    if account !in idx then idx
    else if idx[account] - {key} == {} then map a | a in idx && a != account :: idx[a]
    else idx[account := idx[account] - {key}]
  }

  /** `idx` is exactly the reverse of primary plus secondary. */
  ghost predicate Reverses(idx: Index, items: map<string, Entry>) {
    NoEmptySets(idx) && forall a, k :: Pair(idx, a, k) <==> k in items && Mentions(items[k], a)
  }

  /** The index steps of a primary change, as `Rebind` does to the entry. */
  function Reindex(idx: Index, e: Entry, key: string, account: string, shift: bool): Index {
    if e.primary == account then idx
    else
      var u := RemovePair(idx, e.primary, key);
      var v := if shift && e.secondary != account && e.secondary == "" then AddPair(u, e.primary, key) else u;
      AddPair(v, account, key)
  }

  ghost predicate Apart(items: map<string, Entry>) {
    forall k | k in items :: items[k].primary != items[k].secondary
  }

  lemma ReindexReverses(idx: Index, items: map<string, Entry>, key: string, account: string, shift: bool, until: int)
    requires Reverses(idx, items) && Apart(items) && key in items && items[key].primary != "" && account != ""
    ensures var r := Rebind(items[key], account, shift).(expiresAt := until);
      && r.key == items[key].key && r.primary != ""
      && Reverses(Reindex(idx, items[key], key, account, shift), items[key := r])
      && (Apart(items[key := r]) <==> shift || items[key].secondary != account)
  {
    var e := items[key];
    var r := Rebind(e, account, shift).(expiresAt := until);
    var after := items[key := r];
    assert after[key] == r;
    forall k | k in items && k != key ensures after[k] == items[k] {}
    assert forall a :: Pair(idx, a, key) <==> Mentions(e, a);
  }

  /** Index steps of dropping one entry. */
  lemma RemovalReverses(idx: Index, items: map<string, Entry>, key: string)
    requires Reverses(idx, items) && key in items
    ensures var e := items[key];
      var u := RemovePair(idx, e.primary, key);
      Reverses(if e.secondary != "" then RemovePair(u, e.secondary, key) else u, items - {key})
  {
    assert forall a :: Pair(idx, a, key) <==> Mentions(items[key], a);
  }

  lemma InsertionReverses(idx: Index, items: map<string, Entry>, e: Entry)
    requires Reverses(idx, items) && e.key !in items && e.primary != "" && e.secondary == ""
    ensures Reverses(AddPair(idx, e.primary, e.key), items[e.key := e])
  {
  }

  /** Index steps of giving an entry another secondary ("" for none). */
  lemma SecondaryReverses(idx: Index, items: map<string, Entry>, key: string, second: string, until: int)
    requires Reverses(idx, items) && key in items && items[key].primary != items[key].secondary
    requires items[key].primary != second && items[key].primary != ""
    ensures var e := items[key];
      var u := if e.secondary != "" && e.secondary != second then RemovePair(idx, e.secondary, key) else idx;
      Reverses(AddPair(u, second, key), items[key := e.(secondary := second, expiresAt := until)])
  {
    assert forall a :: Pair(idx, a, key) <==> Mentions(items[key], a);
  }

  // ---- list lemmas ----

  function Listed(ll: seq<string>, items: map<string, Entry>): (es: seq<Entry>)
    requires forall k | k in ll :: k in items
    ensures |es| == |ll|
  {
    if ll == [] then [] else [items[ll[0]]] + Listed(ll[1..], items)
  }

  function RemoveKey(ll: seq<string>, key: string): (r: seq<string>)
    ensures forall k :: k in r <==> k in ll && k != key
    ensures |r| <= |ll|
  {
    if ll == [] then []
    else if ll[0] == key then RemoveKey(ll[1..], key)
    else [ll[0]] + RemoveKey(ll[1..], key)
  }

  ghost predicate Distinct(ll: seq<string>) {
    forall i, j | 0 <= i < j < |ll| :: ll[i] != ll[j]
  }

  ghost predicate Filed(ll: seq<string>, items: map<string, Entry>) {
    && Distinct(ll)
    && (forall k | k in ll :: k in items)
    && (forall k | k in items :: k in ll && items[k].key == k && k != "")
  }

  lemma FiledKey(ll: seq<string>, items: map<string, Entry>, key: string)
    requires Filed(ll, items) && key in items
    ensures items[key].key == key && key in ll
  {
  }

  lemma {:induction false} ListedAt(ll: seq<string>, items: map<string, Entry>)
    requires forall k | k in ll :: k in items
    ensures |Listed(ll, items)| == |ll|
    ensures forall i | 0 <= i < |ll| :: Listed(ll, items)[i] == items[ll[i]]
  {
    if ll != [] { ListedAt(ll[1..], items); }
  }

  lemma {:induction false} ListedWithout(ll: seq<string>, items: map<string, Entry>, rest: map<string, Entry>, key: string)
    requires forall k | k in ll :: k in items && items[k].key == k
    requires forall k | k in ll && k != key :: k in rest && rest[k] == items[k]
    ensures forall k | k in RemoveKey(ll, key) :: k in rest
    ensures Listed(RemoveKey(ll, key), rest) == Without(Listed(ll, items), key)
  {
    if ll != [] {
      ListedWithout(ll[1..], items, rest, key);
      assert ([ll[0]] + RemoveKey(ll[1..], key))[1..] == RemoveKey(ll[1..], key);
    }
  }

  lemma {:induction false} ListedReplace(ll: seq<string>, items: map<string, Entry>, e: Entry)
    requires forall k | k in ll :: k in items && items[k].key == k
    ensures forall k | k in ll :: k in items[e.key := e]
    ensures Listed(ll, items[e.key := e]) == Replace(Listed(ll, items), e)
  {
    if ll != [] { ListedReplace(ll[1..], items, e); }
  }

  lemma {:induction false} RemoveKeyLength(ll: seq<string>, key: string)
    requires Distinct(ll)
    ensures Distinct(RemoveKey(ll, key))
    ensures |RemoveKey(ll, key)| == if key in ll then |ll| - 1 else |ll|
  {
    if ll != [] {
      RemoveKeyLength(ll[1..], key);
      assert ll[0] !in ll[1..];
    }
  }

  lemma {:induction false} RemoveLast(ll: seq<string>)
    requires ll != [] && Distinct(ll)
    ensures RemoveKey(ll, ll[|ll| - 1]) == ll[..|ll| - 1]
  {
    if |ll| > 1 {
      RemoveLast(ll[1..]);
      assert ll[..|ll| - 1] == [ll[0]] + ll[1..][..|ll| - 2];
    }
  }

  lemma {:induction false} RemoveAbsent(ll: seq<string>, key: string)
    requires key !in ll
    ensures RemoveKey(ll, key) == ll
  {
    if ll != [] { RemoveAbsent(ll[1..], key); }
  }

  lemma {:induction false} FindListed(ll: seq<string>, items: map<string, Entry>, key: string)
    requires forall k | k in ll :: k in items && items[k].key == k
    ensures Has(Listed(ll, items), key) <==> key in ll
    ensures key in ll ==> Find(Listed(ll, items), key) == items[key]
    ensures |Listed(ll, items)| == |ll|
  {
    if ll != [] {
      var es, rest := Listed(ll, items), Listed(ll[1..], items);
      FindListed(ll[1..], items, key);
      assert es[0] == items[ll[0]] && es[1..] == rest;
      if Has(rest, key) {
        var i :| 0 <= i < |rest| && rest[i].key == key;
        assert es[i + 1].key == key;
      }
      if Has(es, key) && es[0].key != key {
        var i :| 0 <= i < |es| && es[i].key == key;
        assert rest[i - 1].key == key;
      }
    }
  }

  lemma ListedTouch(ll: seq<string>, items: map<string, Entry>, e: Entry)
    requires Filed(ll, items) && e.key in items
    ensures var ll' := [e.key] + RemoveKey(ll, e.key);
      && Filed(ll', items[e.key := e]) && |ll'| == |ll|
      && Listed(ll', items[e.key := e]) == Touch(Listed(ll, items), e)
  {
    var ll', items' := [e.key] + RemoveKey(ll, e.key), items[e.key := e];
    RemoveKeyLength(ll, e.key);
    ListedWithout(ll, items, items', e.key);
    assert ll'[1..] == RemoveKey(ll, e.key);
  }

  lemma WithoutAbsent(ll: seq<string>, items: map<string, Entry>, key: string)
    requires Filed(ll, items) && key !in items
    ensures Without(Listed(ll, items), key) == Listed(ll, items)
  {
    ListedWithout(ll, items, items, key);
    RemoveAbsent(ll, key);
  }

  lemma ListedInsert(ll: seq<string>, items: map<string, Entry>, e: Entry)
    requires Filed(ll, items) && e.key !in items && e.key != ""
    ensures Filed([e.key] + ll, items[e.key := e])
    ensures Listed([e.key] + ll, items[e.key := e]) == [e] + Listed(ll, items)
  {
    var ll', items' := [e.key] + ll, items[e.key := e];
    assert ll'[1..] == ll;
    assert Filed(ll', items') by { hide Listed, Without, RemoveKey; }
    hide Filed;
    SameListing(ll, items, items');
  }

  lemma {:induction false} SameListing(ll: seq<string>, items: map<string, Entry>, other: map<string, Entry>)
    requires forall k | k in ll :: k in items && k in other && other[k] == items[k]
    ensures Listed(ll, items) == Listed(ll, other)
  {
    if ll != [] { SameListing(ll[1..], items, other); }
  }

  lemma ListedRemoval(ll: seq<string>, items: map<string, Entry>, key: string)
    requires Filed(ll, items) && key in items
    ensures Filed(RemoveKey(ll, key), items - {key}) && |RemoveKey(ll, key)| == |ll| - 1
    ensures Listed(RemoveKey(ll, key), items - {key}) == Without(Listed(ll, items), key)
  {
    RemoveKeyLength(ll, key);
    ListedWithout(ll, items, items - {key}, key);
  }

  // ---- dropping an account piece by piece ----

  lemma {:induction false} DropNothing(es: seq<Entry>, account: string)
    requires forall i | 0 <= i < |es| :: !Mentions(es[i], account)
    requires account != ""
    ensures DropAccount(es, account) == es
  {
    if es != [] {
      assert !Mentions(es[0], account);
      DropNothing(es[1..], account);
    }
  }

  lemma {:induction false} DropAfterRemove(es: seq<Entry>, key: string, account: string)
    requires forall i | 0 <= i < |es| && es[i].key == key :: es[i].primary == account
    ensures DropAccount(Without(es, key), account) == DropAccount(es, account)
  {
    if es != [] {
      DropAfterRemove(es[1..], key, account);
      assert ([es[0]] + Without(es[1..], key))[1..] == Without(es[1..], key);
    }
  }

  lemma {:induction false} DropAfterClear(es: seq<Entry>, e: Entry, account: string)
    requires account != "" && e.primary != account && e.secondary == account
    requires forall i | 0 <= i < |es| && es[i].key == e.key :: es[i] == e
    ensures DropAccount(Replace(es, e.(secondary := "")), account) == DropAccount(es, account)
  {
    if es != [] { DropAfterClear(es[1..], e, account); }
  }

  /** Dropping an account leaves no mention of it, and keeps every other entry, its primary, its expiry
      and the order. */
  lemma {:induction false} DropAccountExact(es: seq<Entry>, account: string)
    requires account != ""
    ensures var r := DropAccount(es, account);
      && (forall i | 0 <= i < |r| :: !Mentions(r[i], account))
      && Skeleton(r) == Skeleton(Others(es, account))
      && (forall e | e in es && !Mentions(e, account) :: e in r)
  {
    if es != [] {
      DropAccountExact(es[1..], account);
      var rest := DropAccount(es[1..], account);
      if es[0].primary != account {
        assert DropAccount(es, account)[1..] == rest && Others(es, account)[1..] == Others(es[1..], account);
      }
    }
  }

  function Others(es: seq<Entry>, account: string): seq<Entry> {
    if es == [] then []
    else if es[0].primary == account then Others(es[1..], account)
    else [es[0]] + Others(es[1..], account)
  }

  /** What dropping a secondary must not change. */
  function Skeleton(es: seq<Entry>): seq<(string, string, int)> {
    if es == [] then [] else [(es[0].key, es[0].primary, es[0].expiresAt)] + Skeleton(es[1..])
  }

  // ---- the structure ----

  class Lru {
    const max: nat
    const ttl: int
    var ll: seq<string>
    var items: map<string, Entry>
    var byAcct: Index

    /** The list and the map hold the same keys, the size is bounded, no primary is empty, and the
        reverse index is exact. */
    ghost predicate Structure()
      reads this
    {
      && max > 0 && ttl > 0 && |ll| <= max
      && Filed(ll, items)
      && Reverses(byAcct, items)
      && (forall k | k in items :: items[k].primary != "")
    }

    /** No entry names one account twice. */
    ghost predicate Separated()
      reads this
    {
      Apart(items)
    }

    ghost predicate Valid()
      reads this
    {
      Structure() && Separated()
    }

    ghost function View(): seq<Entry>
      reads this
      requires Filed(ll, items)
    {
      Listed(ll, items)
    }

    constructor (max0: int, ttl0: int)
      ensures Valid() && View() == []
      ensures max == (if max0 <= 0 then 100000 else max0) && ttl == (if ttl0 <= 0 then 1800 else ttl0)
    {
      max := if max0 <= 0 then 100000 else max0;
      ttl := if ttl0 <= 0 then 1800 else ttl0;
      ll, items, byAcct := [], map[], map[];
    }

    method IndexAccount(account: string, key: string)
      modifies this`byAcct
      ensures byAcct == AddPair(old(byAcct), account, key)
    {
      if account == "" { return; }
      var keys := if account in byAcct then byAcct[account] else {};
      byAcct := byAcct[account := keys + {key}];
    }

    method UnindexAccount(account: string, key: string)
      modifies this`byAcct
      ensures byAcct == RemovePair(old(byAcct), account, key)
    {
      if account !in byAcct { return; }
      byAcct := byAcct[account := byAcct[account] - {key}];
      if byAcct[account] == {} {
        byAcct := map a | a in byAcct && a != account :: byAcct[a];
      }
    }

    method MoveToFront(e: Entry)
      requires Filed(ll, items) && e.key in items
      modifies this`ll, this`items
      ensures Filed(ll, items) && |ll| == old(|ll|) && items == old(items)[e.key := e]
      ensures View() == Touch(old(View()), e)
    {
      ListedTouch(ll, items, e);
      ll := [e.key] + RemoveKey(ll, e.key);
      items := items[e.key := e];
    }

    method RemoveElement(key: string)
      requires Structure() && key in items
      modifies this
      ensures Structure() && (old(Separated()) ==> Separated())
      ensures View() == Without(old(View()), key) && |ll| == old(|ll|) - 1
      ensures items == old(items) - {key} && ll == RemoveKey(old(ll), key)
    {
      hide Reverses, Filed;
      var e := items[key];
      RemovalReverses(byAcct, items, key);
      ListedRemoval(ll, items, key);
      ll := RemoveKey(ll, key);
      items := items - {key};
      UnindexAccount(e.primary, key);
      if e.secondary != "" {
        UnindexAccount(e.secondary, key);
      }
    }

    method GetPair(now: int, key: string) returns (primary: string, secondary: string, ok: bool)
      requires Valid()
      modifies this
      ensures Valid() && View() == AfterGet(old(View()), now, ttl, key)
      ensures ok <==> key != "" && Has(old(View()), key) && !Expired(Find(old(View()), key), now)
      ensures ok ==> primary == Find(old(View()), key).primary && secondary == Find(old(View()), key).secondary
      ensures !ok ==> primary == "" && secondary == ""
    {
      primary, secondary, ok := "", "", false;
      FindListed(ll, items, key);
      if key == "" || key !in items { return; }
      var e := items[key];
      if e.expiresAt > 0 && e.expiresAt <= now {
        RemoveElement(key);
        return;
      }
      MoveToFront(e.(expiresAt := now + ttl));
      primary, secondary, ok := e.primary, e.secondary, true;
    }

    /** Without `shift` the new primary may equal the secondary: that, and only that, breaks separation. */
    method PutPrimary(now: int, key: string, account: string, shift: bool)
      requires Valid()
      modifies this
      ensures Structure() && View() == AfterPutPrimary(old(View()), max, now, ttl, key, account, shift)
      ensures Separated() <==> shift || account == "" || !(key in old(items) && old(items)[key].secondary == account)
    {
      FindListed(ll, items, key);
      if key == "" || account == "" { return; }
      if key in items {
        Reput(now, key, account, shift);
        return;
      }
      while |ll| >= max
        invariant Valid() && key !in items
        invariant ll <= old(ll) && View() == old(View())[..|ll|]
        invariant |ll| == old(|ll|) || |ll| >= max - 1
      {
        EvictOldest();
      }
      assert old(View())[..|old(View())|] == old(View());
      Insert(Entry(key, account, "", now + ttl));
    }

    method EvictOldest()
      requires Valid() && ll != []
      modifies this
      ensures Valid() && ll == old(ll)[..|old(ll)| - 1] && View() == old(View())[..|ll|]
      ensures items.Keys <= old(items.Keys)
    {
      RemoveLast(ll);
      ListedAt(ll, items);
      RemoveElement(ll[|ll| - 1]);
      ListedAt(ll, items);
    }

    method Insert(e: Entry)
      requires Valid() && |ll| < max && e.key !in items && e.key != "" && e.primary != "" && e.secondary == ""
      modifies this
      ensures Valid() && View() == [e] + old(View())
    {
      hide Reverses, Filed;
      InsertionReverses(byAcct, items, e);
      ListedInsert(ll, items, e);
      ll := [e.key] + ll;
      items := items[e.key := e];
      IndexAccount(e.primary, e.key);
    }

    method Reput(now: int, key: string, account: string, shift: bool)
      requires Valid() && key in items && account != ""
      modifies this
      ensures Structure()
      ensures View() == Touch(old(View()), Rebind(old(items)[key], account, shift).(expiresAt := now + ttl))
      ensures Separated() <==> shift || old(items)[key].secondary != account
    {
      hide Reverses, Filed, Apart;
      ReindexReverses(byAcct, items, key, account, shift, now + ttl);
      FiledKey(ll, items, key);
      var e := items[key];
      if e.primary != account {
        UnindexAccount(e.primary, key);
        if shift {
          if e.secondary == account {
            e := e.(secondary := "");
          } else if e.secondary == "" {
            e := e.(secondary := e.primary);
            IndexAccount(e.secondary, key);
          }
        }
        e := e.(primary := account);
        IndexAccount(account, key);
      }
      MoveToFront(e.(expiresAt := now + ttl));
    }

    method PutSecondary(now: int, key: string, account: string)
      requires Valid()
      modifies this
      ensures Valid() && View() == AfterPutSecondary(old(View()), now, ttl, key, account)
    {
      FindListed(ll, items, key);
      if key == "" || account == "" || key !in items { return; }
      Resecond(now, key, account);
    }

    method Resecond(now: int, key: string, account: string)
      requires Valid() && key in items && account != ""
      modifies this
      ensures Valid()
      ensures var e := old(items)[key];
        View() == Touch(old(View()), e.(secondary := if e.primary == account then "" else account, expiresAt := now + ttl))
    {
      hide Reverses, Filed;
      FiledKey(ll, items, key);
      var e := items[key];
      SecondaryReverses(byAcct, items, key, if e.primary == account then "" else account, now + ttl);
      if e.primary == account {
        if e.secondary != "" {
          UnindexAccount(e.secondary, key);
          e := e.(secondary := "");
        }
        MoveToFront(e.(expiresAt := now + ttl));
        return;
      }
      if e.secondary != "" && e.secondary != account {
        UnindexAccount(e.secondary, key);
      }
      e := e.(secondary := account);
      IndexAccount(account, key);
      MoveToFront(e.(expiresAt := now + ttl));
    }

    method DeleteKey(key: string)
      requires Valid()
      modifies this
      ensures Valid() && View() == if key == "" then old(View()) else Without(old(View()), key)
    {
      if key == "" { return; }
      if key in items {
        RemoveElement(key);
      } else {
        WithoutAbsent(ll, items, key);
      }
    }

    method DeleteAccount(account: string)
      requires Valid()
      modifies this
      ensures Valid() && View() == if account == "" then old(View()) else DropAccount(old(View()), account)
    {
      if account == "" { return; }
      var pending := if account in byAcct then byAcct[account] else {};
      assert forall k | k in items && Mentions(items[k], account) :: Pair(byAcct, account, k);
      while pending != {}
        invariant Valid()
        invariant forall k | k in items && Mentions(items[k], account) :: k in pending
        invariant DropAccount(View(), account) == DropAccount(old(View()), account)
      {
        var k :| k in pending;
        ForgetIn(k, account);
        pending := pending - {k};
      }
      ListedAt(ll, items);
      DropNothing(View(), account);
    }

    /** One key of the account: the whole entry if it is the primary, else just the secondary. */
    method ForgetIn(k: string, account: string)
      requires Valid() && account != ""
      modifies this
      ensures Valid() && DropAccount(View(), account) == DropAccount(old(View()), account)
      ensures items.Keys <= old(items.Keys) && (k in items ==> !Mentions(items[k], account))
      ensures forall l | l in items && l != k :: items[l] == old(items)[l]
    {
      if k !in items { return; }
      hide Reverses, Filed, DropAccount, Without, Replace;
      FiledKey(ll, items, k);
      var e := items[k];
      if e.primary == account {
        OnlyEntry(ll, items, k);
        DropAfterRemove(View(), k, account);
        RemoveElement(k);
      } else if e.secondary == account {
        ClearSecondary(k);
      }
    }

    method ClearSecondary(k: string)
      requires Valid() && k in items && items[k].secondary != ""
      modifies this
      ensures Valid() && DropAccount(View(), old(items)[k].secondary) == DropAccount(old(View()), old(items)[k].secondary)
      ensures items == old(items)[k := old(items)[k].(secondary := "")]
    {
      hide Reverses, Filed, DropAccount, Without, Replace;
      FiledKey(ll, items, k);
      OnlyEntry(ll, items, k);
      var e := items[k];
      SecondaryReverses(byAcct, items, k, "", e.expiresAt);
      FiledReplace(ll, items, e.(secondary := ""));
      DropAfterClear(View(), e, e.secondary);
      UnindexAccount(e.secondary, k);
      items := items[k := e.(secondary := "")];
    }
  }

  lemma OnlyEntry(ll: seq<string>, items: map<string, Entry>, key: string)
    requires Filed(ll, items) && key in items
    ensures forall i | 0 <= i < |Listed(ll, items)| && Listed(ll, items)[i].key == key :: Listed(ll, items)[i] == items[key]
  {
    ListedAt(ll, items);
  }

  lemma FiledReplace(ll: seq<string>, items: map<string, Entry>, e: Entry)
    requires Filed(ll, items) && e.key in items
    ensures Filed(ll, items[e.key := e]) && Listed(ll, items[e.key := e]) == Replace(Listed(ll, items), e)
  {
    ListedReplace(ll, items, e);
  }

  // ---- recency order and expiry over whole runs ----

  datatype Op =
    | Get(key: string)
    | Put(key: string, account: string)
    | PutSecond(key: string, account: string)
    | Delete(key: string)
    | Forget(account: string)

  datatype Timed = Timed(now: int, op: Op)

  function After(es: seq<Entry>, max: nat, ttl: int, t: Timed): seq<Entry>
    requires max > 0
  {
    match t.op
    case Get(key) => AfterGet(es, t.now, ttl, key)
    case Put(key, account) => AfterPutPrimary(es, max, t.now, ttl, key, account, true)
    case PutSecond(key, account) => AfterPutSecondary(es, t.now, ttl, key, account)
    case Delete(key) => if key == "" then es else Without(es, key)
    case Forget(account) => if account == "" then es else DropAccount(es, account)
  }

  function RunOps(es: seq<Entry>, max: nat, ttl: int, ts: seq<Timed>): seq<Entry>
    requires max > 0
    decreases |ts|
  {
    if ts == [] then es else RunOps(After(es, max, ttl, ts[0]), max, ttl, ts[1..])
  }

  /** At clock `now`: the list is ordered by expiry, newest first, and nothing expires later than an entry
      touched right now would. */
  ghost predicate Ordered(es: seq<Entry>, now: int, ttl: int) {
    && (forall i, j | 0 <= i < j < |es| :: es[i].expiresAt >= es[j].expiresAt)
    && (forall i | 0 <= i < |es| :: 0 < es[i].expiresAt <= now + ttl)
  }

  predicate Monotone(now: int, ts: seq<Timed>)
    decreases |ts|
  {
    ts == [] || (now <= ts[0].now && Monotone(ts[0].now, ts[1..]))
  }

  function Clock(now: int, ts: seq<Timed>): int {
    if ts == [] then now else ts[|ts| - 1].now
  }

  lemma {:induction false} WithoutOrdered(es: seq<Entry>, now: int, ttl: int, key: string)
    requires Ordered(es, now, ttl)
    ensures Ordered(Without(es, key), now, ttl) && forall e :: e in Without(es, key) ==> e in es
  {
    if es != [] {
      WithoutOrdered(es[1..], now, ttl, key);
      FrontOrdered(es[0], es[1..], Without(es[1..], key), now, ttl);
    }
  }

  lemma FrontOrdered(e: Entry, rest: seq<Entry>, kept: seq<Entry>, now: int, ttl: int)
    requires Ordered([e] + rest, now, ttl) && Ordered(kept, now, ttl)
    requires forall f :: f in kept ==> f in rest
    ensures Ordered([e] + kept, now, ttl)
  {
    forall i | 0 <= i < |kept| ensures e.expiresAt >= kept[i].expiresAt {
      assert kept[i] in rest;
      var j :| 0 <= j < |rest| && rest[j] == kept[i];
      assert ([e] + rest)[j + 1] == kept[i];
    }
    assert ([e] + rest)[0] == e;
  }

  lemma {:induction false} DropOrdered(es: seq<Entry>, now: int, ttl: int, account: string)
    requires Ordered(es, now, ttl)
    ensures Ordered(DropAccount(es, account), now, ttl)
    ensures forall i | 0 <= i < |DropAccount(es, account)| ::
              exists j | 0 <= j < |es| :: es[j].expiresAt == DropAccount(es, account)[i].expiresAt
  {
    if es != [] {
      DropOrdered(es[1..], now, ttl, account);
      var rest := DropAccount(es[1..], account);
      forall i | 0 <= i < |rest| ensures rest[i].expiresAt <= es[0].expiresAt
        ensures exists j | 0 <= j < |es| :: es[j].expiresAt == rest[i].expiresAt
      {
        var j :| 0 <= j < |es[1..]| && es[1..][j].expiresAt == rest[i].expiresAt;
        assert es[j + 1].expiresAt == rest[i].expiresAt;
      }
      var r := DropAccount(es, account);
      forall i | 0 <= i < |r| ensures exists j | 0 <= j < |es| :: es[j].expiresAt == r[i].expiresAt {
        if r != rest && i == 0 {
          assert es[0].expiresAt == r[0].expiresAt;
        } else {
          var m := if r == rest then i else i - 1;
          assert r[i] == rest[m];
        }
      }
    }
  }

  lemma TouchOrdered(es: seq<Entry>, now: int, ttl: int, e: Entry, later: int)
    requires Ordered(es, now, ttl) && now <= later && e.expiresAt == later + ttl && e.expiresAt > 0
    ensures Ordered(Touch(es, e), later, ttl)
  {
    WithoutOrdered(es, now, ttl, e.key);
  }

  lemma StepOrdered(es: seq<Entry>, now: int, max: nat, ttl: int, t: Timed)
    requires max > 0 && ttl > 0 && 0 <= now <= t.now && Ordered(es, now, ttl)
    ensures Ordered(After(es, max, ttl, t), t.now, ttl)
  {
    hide Without, DropAccount, Touch, Find, Has, Rebind;
    match t.op
    case Get(key) =>
      WithoutOrdered(es, t.now, ttl, key);
      if Has(es, key) { TouchOrdered(es, now, ttl, Find(es, key).(expiresAt := t.now + ttl), t.now); }
    case Put(key, account) =>
      if Has(es, key) { TouchOrdered(es, now, ttl, Rebind(Find(es, key), account, true).(expiresAt := t.now + ttl), t.now); }
    case PutSecond(key, account) =>
      if Has(es, key) {
        var e := Find(es, key);
        TouchOrdered(es, now, ttl, e.(secondary := if e.primary == account then "" else account, expiresAt := t.now + ttl), t.now);
      }
    case Delete(key) => WithoutOrdered(es, t.now, ttl, key);
    case Forget(account) => DropOrdered(es, t.now, ttl, account);
  }

  /** With a clock that never goes back, the recency list stays ordered by expiry in every run. */
  lemma {:induction false} RunOrdered(es: seq<Entry>, now: int, max: nat, ttl: int, ts: seq<Timed>)
    requires max > 0 && ttl > 0 && 0 <= now && Ordered(es, now, ttl) && Monotone(now, ts)
    ensures Ordered(RunOps(es, max, ttl, ts), Clock(now, ts), ttl) && Clock(now, ts) >= now
    decreases |ts|
  {
    if ts != [] {
      StepOrdered(es, now, max, ttl, ts[0]);
      RunOrdered(After(es, max, ttl, ts[0]), ts[0].now, max, ttl, ts[1..]);
    }
  }

  /** In every run, an entry evicted for capacity expires no later than any entry kept, so a live
      binding is never evicted while an expired one stays. */
  lemma EvictionIsFair(max: nat, ttl: int, ts: seq<Timed>, t: Timed)
    requires max > 0 && ttl > 0 && Monotone(0, ts + [t]) && t.op.Put?
    ensures var before := RunOps([], max, ttl, ts); var after := After(before, max, ttl, t);
      forall i, j | 0 <= i < |before| && 0 <= j < |after| && !Has(after, before[i].key) ::
        before[i].expiresAt <= after[j].expiresAt && (Expired(after[j], t.now) ==> Expired(before[i], t.now))
  {
    var before := RunOps([], max, ttl, ts);
    MonotonePrefix(0, ts, t);
    RunOrdered([], 0, max, ttl, ts);
    var last := Clock(0, ts);
    assert Ordered(before, last, ttl);
    var after := After(before, max, ttl, t);
    forall i, j | 0 <= i < |before| && 0 <= j < |after| && !Has(after, before[i].key)
      ensures before[i].expiresAt <= after[j].expiresAt
    {
      EvictedAreLast(before, max, t, ttl, i);
      if j > 0 { assert after[j] == before[j - 1]; }
    }
  }

  lemma {:induction false} MonotonePrefix(now: int, ts: seq<Timed>, t: Timed)
    requires Monotone(now, ts + [t])
    ensures Monotone(now, ts) && Clock(now, ts) <= t.now
    decreases |ts|
  {
    if ts != [] {
      assert (ts + [t])[0] == ts[0] && (ts + [t])[1..] == ts[1..] + [t];
      MonotonePrefix(ts[0].now, ts[1..], t);
    }
  }

  lemma EvictedAreLast(es: seq<Entry>, max: nat, t: Timed, ttl: int, i: nat)
    requires max > 0 && t.op.Put? && i < |es|
    ensures var after := After(es, max, ttl, t);
      || Has(after, es[i].key)
      || (max - 1 <= i && after == [Entry(t.op.key, t.op.account, "", t.now + ttl)] + es[..max - 1])
  {
    var key, account := t.op.key, t.op.account;
    var after := After(es, max, ttl, t);
    if key != "" && account != "" {
      if Has(es, key) {
        TouchKeeps(es, Rebind(Find(es, key), account, true).(expiresAt := t.now + ttl), i);
      } else if |es| < max || i < max - 1 {
        assert after[i + 1] == es[i];
      }
    }
  }

  lemma TouchKeeps(es: seq<Entry>, e: Entry, i: nat)
    requires i < |es|
    ensures Has(Touch(es, e), es[i].key)
  {
    if es[i].key == e.key {
      assert Touch(es, e)[0].key == e.key;
    } else {
      WithoutKeeps(es, e.key, i);
      var j :| 0 <= j < |Without(es, e.key)| && Without(es, e.key)[j].key == es[i].key;
      assert Touch(es, e)[j + 1].key == es[i].key;
    }
  }

  lemma {:induction false} WithoutKeeps(es: seq<Entry>, key: string, i: nat)
    requires i < |es| && es[i].key != key
    ensures Has(Without(es, key), es[i].key)
  {
    var rest := Without(es[1..], key);
    if i > 0 {
      WithoutKeeps(es[1..], key, i - 1);
      var j :| 0 <= j < |rest| && rest[j].key == es[i].key;
      assert Without(es, key)[if es[0].key == key then j else j + 1].key == es[i].key;
    } else {
      assert Without(es, key)[0] == es[0];
    }
  }
}
