/**
 * The admin dashboard's counters: `/count_users`, `/count_items` and the
 * per-user tallies of `/user_statistics`.
 */
module Dashboard {
  import opened Outcomes
  import opened Sequences
  import opened ItemModel
  import opened Accounts

  datatype UserStat = UserStat(username: string, itemsAdded: nat, itemsBought: nat)

  /** The set of document ids of the user table. */
  function UserIds(users: seq<Account>): set<nat>
  {
    set i | 0 <= i < |users| :: users[i].id
  }

  lemma {:induction false} UserIdsSize(users: seq<Account>)
    requires AccountIdsUnique(users)
    ensures |UserIds(users)| == |users|
  {
    if users != [] {
      var init := users[..|users| - 1];
      var last := users[|users| - 1];
      assert AccountIdsUnique(init);
      UserIdsSize(init);
      assert UserIds(users) == UserIds(init) + {last.id};
      assert last.id !in UserIds(init);
    }
  }

  /** `User.countDocuments({})`: one per user document. */
  function CountUsers(users: seq<Account>): (n: nat)
    requires AccountIdsUnique(users)
    ensures n == |UserIds(users)|
  {
    UserIdsSize(users);
    |users|
  }

  /** `Item.countDocuments({})`: purchased and unpurchased items alike. */
  function CountItems(items: seq<Item>): (n: nat)
    ensures n == Count(items, Purchased) + Count(items, NotPurchased)
  {
    FilterPartition(items, Purchased, NotPurchased);
    |items|
  }

  /** The `$group` key for items added: `added_by`, dropped when falsy. */
  function AddedKey(it: Item): Option<string>
  {
    if it.addedBy != "" then Some(it.addedBy) else None
  }

  /** The `$match: { is_purchased: true }` then `$group` key `purchased_by`,
      dropped when falsy. */
  function BoughtKey(it: Item): Option<string>
  {
    if it.isPurchased && it.purchasedBy.Some? && it.purchasedBy.value != "" then it.purchasedBy else None
  }

  /** The number of items whose group key is `name`. */
  function Tally(items: seq<Item>, key: Item -> Option<string>, name: string): nat
  {
    if items == [] then 0
    else Tally(items[..|items| - 1], key, name) + (if key(items[|items| - 1]) == Some(name) then 1 else 0)
  }

  /** The number of items that have a group key at all. */
  function Keyed(items: seq<Item>, key: Item -> Option<string>): nat
  {
    if items == [] then 0
    else Keyed(items[..|items| - 1], key) + (if key(items[|items| - 1]).Some? then 1 else 0)
  }

  function PurchasedCount(items: seq<Item>): nat
  {
    if items == [] then 0
    else PurchasedCount(items[..|items| - 1]) + (if items[|items| - 1].isPurchased then 1 else 0)
  }

  /** `addedMap[name] || 0`. */
  function Lookup(m: map<string, nat>, name: string): nat
  {
    if name in m then m[name] else 0
  }

  /** The aggregation and the `forEach` that fills `addedMap` / `boughtMap`. */
  method TallyByKey(items: seq<Item>, key: Item -> Option<string>) returns (m: map<string, nat>)
    ensures forall name :: Lookup(m, name) == Tally(items, key, name)
    ensures forall name :: name in m ==> m[name] > 0
  {
    m := map[];
    var i := 0;
    while i < |items|
      invariant 0 <= i <= |items|
      invariant forall name :: Lookup(m, name) == Tally(items[..i], key, name)
      invariant forall name :: name in m ==> m[name] > 0
    {
      assert items[..i + 1][..i] == items[..i];
      match key(items[i]) {
        case None =>
        case Some(k) => m := m[k := Lookup(m, k) + 1];
      }
      i := i + 1;
    }
    assert items[..i] == items;
  }

  /** What `/user_statistics` reports: one entry per user, in user order. */
  function StatsFor(users: seq<Account>, items: seq<Item>): (r: seq<UserStat>)
    ensures |r| == |users|
  {
    seq(|users|, i requires 0 <= i < |users| =>
      UserStat(users[i].name, Tally(items, AddedKey, users[i].name), Tally(items, BoughtKey, users[i].name)))
  }

  method UserStatistics(users: seq<Account>, items: seq<Item>) returns (stats: seq<UserStat>)
    ensures |stats| == |users|
    ensures forall i :: 0 <= i < |users| ==>
      && stats[i].username == users[i].name
      && stats[i].itemsAdded == Tally(items, AddedKey, users[i].name)
      && stats[i].itemsBought == Tally(items, BoughtKey, users[i].name)
  {
    var added := TallyByKey(items, AddedKey);
    var bought := TallyByKey(items, BoughtKey);
    stats := seq(|users|, i requires 0 <= i < |users| =>
      UserStat(users[i].name, Lookup(added, users[i].name), Lookup(bought, users[i].name)));
  }

  /** A user with no items gets zero, and a falsy name never matches. */
  lemma {:induction false} EmptyNameTalliesZero(items: seq<Item>)
    ensures Tally(items, AddedKey, "") == 0 && Tally(items, BoughtKey, "") == 0
  {
    if items != [] {
      EmptyNameTalliesZero(items[..|items| - 1]);
    }
  }

  function SumTally(items: seq<Item>, key: Item -> Option<string>, names: seq<string>): nat
  {
    if names == [] then 0 else Tally(items, key, names[0]) + SumTally(items, key, names[1..])
  }

  /** How many of `names` equal the key `k`. */
  function Hits(names: seq<string>, k: Option<string>): nat
  {
    if names == [] then 0 else (if k == Some(names[0]) then 1 else 0) + Hits(names[1..], k)
  }

  lemma {:induction false} HitsAtMostOne(names: seq<string>, k: Option<string>)
    requires NoDuplicates(names)
    ensures Hits(names, k) <= (if k.Some? then 1 else 0)
  {
    if names != [] {
      assert NoDuplicates(names[1..]);
      HitsAtMostOne(names[1..], k);
      if k == Some(names[0]) {
        HitsNone(names[1..], k);
      }
    }
  }

  lemma {:induction false} HitsNone(names: seq<string>, k: Option<string>)
    requires k.None? || k.value !in names
    ensures Hits(names, k) == 0
  {
    if names != [] {
      HitsNone(names[1..], k);
    }
  }

  lemma {:induction false} SumTallyStep(items: seq<Item>, key: Item -> Option<string>, names: seq<string>)
    requires items != []
    ensures SumTally(items, key, names)
         == SumTally(items[..|items| - 1], key, names) + Hits(names, key(items[|items| - 1]))
  {
    if names != [] {
      SumTallyStep(items, key, names[1..]);
    }
  }

  /** Distinct names share out at most the items that have a key. */
  lemma {:induction false} SumTallyBounded(items: seq<Item>, key: Item -> Option<string>, names: seq<string>)
    requires NoDuplicates(names)
    ensures SumTally(items, key, names) <= Keyed(items, key)
  {
    if items == [] {
      SumTallyEmpty(key, names);
    } else {
      SumTallyStep(items, key, names);
      SumTallyBounded(items[..|items| - 1], key, names);
      HitsAtMostOne(names, key(items[|items| - 1]));
    }
  }

  lemma {:induction false} SumTallyEmpty(key: Item -> Option<string>, names: seq<string>)
    ensures SumTally([], key, names) == 0
  {
    if names != [] {
      SumTallyEmpty(key, names[1..]);
    }
  }

  lemma {:induction false} KeyedBounds(items: seq<Item>)
    ensures Keyed(items, AddedKey) <= |items|
    ensures Keyed(items, BoughtKey) <= PurchasedCount(items)
  {
    if items != [] {
      KeyedBounds(items[..|items| - 1]);
    }
  }

  function Names(users: seq<Account>): seq<string>
  {
    seq(|users|, i requires 0 <= i < |users| => users[i].name)
  }

  function TotalAdded(stats: seq<UserStat>): nat
  {
    if stats == [] then 0 else stats[0].itemsAdded + TotalAdded(stats[1..])
  }

  function TotalBought(stats: seq<UserStat>): nat
  {
    if stats == [] then 0 else stats[0].itemsBought + TotalBought(stats[1..])
  }

  lemma {:induction false} TotalsAreSums(users: seq<Account>, items: seq<Item>)
    ensures TotalAdded(StatsFor(users, items)) == SumTally(items, AddedKey, Names(users))
    ensures TotalBought(StatsFor(users, items)) == SumTally(items, BoughtKey, Names(users))
  {
    if users != [] {
      TotalsAreSums(users[1..], items);
      assert StatsFor(users, items)[1..] == StatsFor(users[1..], items);
      assert Names(users)[1..] == Names(users[1..]);
    }
  }

  /** Items attributed to non-users are not reported, so the added tallies sum to
      at most `count_items` and the bought tallies to at most the purchased items. */
  lemma StatisticsBounded(users: seq<Account>, items: seq<Item>)
    requires NamesUnique(users)
    ensures TotalAdded(StatsFor(users, items)) <= CountItems(items)
    ensures TotalBought(StatsFor(users, items)) <= PurchasedCount(items)
  {
    TotalsAreSums(users, items);
    assert NoDuplicates(Names(users));
    SumTallyBounded(items, AddedKey, Names(users));
    SumTallyBounded(items, BoughtKey, Names(users));
    KeyedBounds(items);
  }
}
