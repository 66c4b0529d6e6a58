/**
 * The mobile purchase-history screen: the purchased items, most recently
 * updated first, each with an "Add Again" button that posts a fresh
 * unscheduled copy owned by the viewer.
 */
module HistoryPage {
  import opened Outcomes
  import opened Calendar
  import opened Sequences
  import opened ItemModel
  import opened AddItem
  import opened ItemStore
  import opened ActiveItems

  const DEFAULT_USER_NAME: string := "User"
  const FETCH_FAILED: string := "Failed to fetch history"
  const RE_ADD_FAILED: string := "Failed to re-add item."

  /** The sort key `new Date(updatedAt)`. */
  function UpdatedKey(it: Item): int
  {
    Millis(it.updatedAt)
  }

  /** The prefix `s[..n]` is in descending key order. */
  ghost predicate PrefixSorted(s: seq<Item>, n: int)
    requires 0 <= n <= |s|
  {
    forall p, q :: 0 <= p < q < n ==> UpdatedKey(s[p]) >= UpdatedKey(s[q])
  }

  /** Midway through inserting `s[i]`: the prefix up to `i` is sorted apart from
      the element travelling at `j`, which is at least as recent as everything
      it has passed. */
  ghost predicate Inserting(s: seq<Item>, i: int, j: int)
  {
    && 0 <= j <= i < |s|
    && (forall p, q :: 0 <= p < q <= i && p != j && q != j ==> UpdatedKey(s[p]) >= UpdatedKey(s[q]))
    && (forall q :: j < q <= i ==> UpdatedKey(s[j]) >= UpdatedKey(s[q]))
  }

  function Swap(s: seq<Item>, j: int): (r: seq<Item>)
    requires 0 < j < |s|
    ensures |r| == |s| && r[j - 1] == s[j] && r[j] == s[j - 1]
    ensures forall k :: 0 <= k < |s| && k != j - 1 && k != j ==> r[k] == s[k]
    ensures multiset(r) == multiset(s)
  {
    s[j - 1 := s[j]][j := s[j - 1]]
  }

  lemma InsertStart(s: seq<Item>, i: int)
    requires 0 <= i < |s| && PrefixSorted(s, i)
    ensures Inserting(s, i, i)
  {
  }

  lemma InsertStep(s: seq<Item>, i: int, j: int)
    requires Inserting(s, i, j) && 0 < j && UpdatedKey(s[j - 1]) < UpdatedKey(s[j])
    ensures Inserting(Swap(s, j), i, j - 1)
  {
    var r := Swap(s, j);
    forall p, q | 0 <= p < q <= i && p != j - 1 && q != j - 1
      ensures UpdatedKey(r[p]) >= UpdatedKey(r[q])
    {
      if q == j {
        // r[j] is s[j - 1], which preceded every other element of the prefix
        if p < j - 1 {
          assert UpdatedKey(s[p]) >= UpdatedKey(s[j - 1]);
        }
      } else if p == j {
        assert UpdatedKey(s[j - 1]) >= UpdatedKey(s[q]);
      }
    }
  }

  lemma InsertDone(s: seq<Item>, i: int, j: int)
    requires Inserting(s, i, j) && (j == 0 || UpdatedKey(s[j - 1]) >= UpdatedKey(s[j]))
    ensures PrefixSorted(s, i + 1)
  {
    forall p, q | 0 <= p < q <= i
      ensures UpdatedKey(s[p]) >= UpdatedKey(s[q])
    {
      if q == j && p < j - 1 {
        assert UpdatedKey(s[p]) >= UpdatedKey(s[j - 1]);
      }
    }
  }

  /** `purchased.sort((a, b) => new Date(b.updatedAt) - new Date(a.updatedAt))`,
      as an insertion sort that only swaps strictly out-of-order neighbours. */
  method SortByUpdatedDesc(a: array<Item>)
    modifies a
    ensures SortedDesc(a[..], UpdatedKey)
    ensures multiset(a[..]) == multiset(old(a[..]))
  {
    var i := 0;
    while i < a.Length
      invariant 0 <= i <= a.Length
      invariant PrefixSorted(a[..], i)
      invariant multiset(a[..]) == multiset(old(a[..]))
    {
      InsertStart(a[..], i);
      var j := i;
      while j > 0 && UpdatedKey(a[j - 1]) < UpdatedKey(a[j])
        invariant Inserting(a[..], i, j)
        invariant multiset(a[..]) == multiset(old(a[..]))
      {
        InsertStep(a[..], i, j);
        ghost var next := Swap(a[..], j);
        a[j - 1], a[j] := a[j], a[j - 1];
        assert a[..] == next;
        j := j - 1;
      }
      InsertDone(a[..], i, j);
      i := i + 1;
    }
  }

  /** The body `handleReAdd` posts: a copy of the name and quantity, the viewer as
      owner, the description or `''`, and schedule `'none'`. */
  function ReAddRequest(item: Item, userName: string): (req: NewItemRequest)
    ensures req.itemName == item.itemName && req.itemQuantity == item.itemQuantity
    ensures req.addedBy == userName && req.itemDescription == item.itemDescription
    ensures req.scheduleType == "none"
    ensures req.regularDays == [] && req.specificDate == None
  {
    NewItemRequest(item.itemName, item.itemQuantity, userName,
                   OrElse(item.itemDescription, ""), "none", [], None)
  }

  /** A replayed item is a fresh, unpurchased, unscheduled document that shows on
      today's list whatever day it is. */
  lemma ReplayIsDueEveryDay(item: Item, userName: string, id: nat, now: Instant, today: Instant)
    requires HasRequiredFields(item) && userName != ""
    ensures var r := Admit(ReAddRequest(item, userName), id, now);
      && r.Ok?
      && r.value.scheduleType == Unscheduled
      && r.value.regularDays == [] && r.value.specificDate == None
      && !r.value.isPurchased && r.value.addedBy == userName
      && DueToday(r.value, today)
  {
    var r := Admit(ReAddRequest(item, userName), id, now);
    assert ParseScheduleType(RequestedSchedule(ReAddRequest(item, userName))) == Some(Unscheduled);
  }

  class HistoryPage {
    var historyItems: seq<Item>
    var isLoading: bool
    var error: string
    var addingItemId: Option<nat>
    const loggedInUserName: string

    /** `route.params?.loggedInUserName || 'User'`; an empty `routeUserName`
        stands for a missing parameter. */
    constructor (routeUserName: string)
      ensures loggedInUserName == OrElse(routeUserName, DEFAULT_USER_NAME)
      ensures loggedInUserName != ""
      ensures historyItems == [] && !isLoading && error == "" && addingItemId == None
    {
      loggedInUserName := OrElse(routeUserName, DEFAULT_USER_NAME);
      historyItems := [];
      isLoading := false;
      error := "";
      addingItemId := None;
    }

    /** `fetchHistory` given the reply of `/get_all_items`. */
    method FetchHistory(reply: Response<seq<Item>>)
      modifies this
      ensures !isLoading && addingItemId == old(addingItemId)
      ensures reply.Ok? ==> (
        && error == ""
        && multiset(historyItems) == multiset(Filter(reply.value, Purchased))
        && SortedDesc(historyItems, UpdatedKey))
      ensures reply.Ok? ==> forall x :: x in historyItems <==> x in reply.value && x.isPurchased
      ensures !reply.Ok? ==> error == OrElse(reply.error, FETCH_FAILED) && historyItems == old(historyItems)
    {
      isLoading := true;
      error := "";
      if reply.Ok? {
        var purchased := Filter(reply.value, Purchased);
        var a := new Item[|purchased|](i requires 0 <= i < |purchased| => purchased[i]);
        assert a[..] == purchased;
        SortByUpdatedDesc(a);
        historyItems := a[..];
        assert forall x :: x in historyItems <==> x in multiset(historyItems);
        assert forall x :: x in purchased <==> x in multiset(purchased);
      } else {
        error := OrElse(reply.error, FETCH_FAILED);
      }
      isLoading := false;
    }

    /** `handleReAdd`: posts the copy to the store. `inFlight` is `addingItemId`
        while the request is outstanding; the returned `alert` is the text shown. */
    method HandleReAdd(store: Store, item: Item, now: Instant) returns (inFlight: Option<nat>, alert: string)
      requires store.Valid()
      modifies this, store
      ensures store.Valid()
      ensures inFlight == Some(item.id) && addingItemId == None
      ensures historyItems == old(historyItems) && error == old(error) && isLoading == old(isLoading)
      ensures var a := Admit(ReAddRequest(item, loggedInUserName), old(store.nextId), now);
        && (a.Ok? ==> store.items == old(store.items) + [a.value] && alert == item.itemName + " added back to list!")
        && (!a.Ok? ==> store.items == old(store.items) && alert == RE_ADD_FAILED)
    {
      addingItemId := Some(item.id);
      inFlight := addingItemId;
      var r := store.AddNewItem(ReAddRequest(item, loggedInUserName), now);
      if r.Ok? {
        alert := item.itemName + " added back to list!";
      } else {
        alert := RE_ADD_FAILED;
      }
      addingItemId := None;
    }
  }
}
