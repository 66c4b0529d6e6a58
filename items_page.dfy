/**
 * The admin "Grocery Items Management" page: the purchase columns, the row
 * selection, and single and batch deletes against the item store followed by
 * a reload from `/get_all_items`.
 */
module ItemsPage {
  import opened Outcomes
  import opened Calendar
  import opened Sequences
  import opened Text
  import opened ItemModel
  import opened MarkBought
  import opened ItemStore
  import opened Selection

  const NOT_YET: string := "Not yet"
  const NOT_AVAILABLE: string := "N/A"
  const NONE_SELECTED: string := "No items selected for deletion."
  const BATCH_DELETED: string := "Selected items deleted successfully!"
  const NOUN: string := "item"

  /** The "Purchased" column. */
  function PurchasedCell(it: Item): (s: string)
    ensures s == "Yes" <==> it.isPurchased
    ensures s == "Yes" || s == "No"
  {
    if it.isPurchased then "Yes" else "No"
  }

  /** The "Purchased By" column: `is_purchased ? (purchased_by || 'N/A') : 'Not yet'`. */
  function PurchasedByCell(it: Item): (s: string)
    ensures !it.isPurchased ==> s == NOT_YET
    ensures it.isPurchased && it.purchasedBy.Some? && it.purchasedBy.value != "" ==> s == it.purchasedBy.value
    ensures it.isPurchased && (it.purchasedBy.None? || it.purchasedBy.value == "") ==> s == NOT_AVAILABLE
  {
    if !it.isPurchased then NOT_YET
    else if it.purchasedBy.Some? then OrElse(it.purchasedBy.value, NOT_AVAILABLE)
    else NOT_AVAILABLE
  }

  /** After `/mark_item_bought` the columns show the transition: the buyer who
      marked it, "N/A"-or-earlier buyer when none was given, and "Not yet" on
      unmarking. */
  lemma CellsAfterMarking(it: Item, purchasedBy: string, now: Instant)
    ensures purchasedBy != "" ==> PurchasedByCell(Marked(it, true, purchasedBy, now)) == purchasedBy
    ensures PurchasedByCell(Marked(it, true, "", now)) == PurchasedByCell(it.(isPurchased := true))
    ensures PurchasedByCell(Marked(it, false, purchasedBy, now)) == NOT_YET
    ensures PurchasedCell(Marked(it, true, purchasedBy, now)) == "Yes"
  {
  }

  /** The error `fetchItems` sets for a reply. */
  function FetchError(reply: Response<seq<Item>>): (e: Option<string>)
    ensures e.None? <==> reply.Ok?
    ensures !reply.Ok? && reply.error != "" ==> e == Some(reply.error)
    ensures !reply.Ok? && reply.error == "" ==> e == Some("HTTP error! Status: " + NatToString(reply.Status()))
  {
    if reply.Ok? then None
    else Some(OrElse(reply.error, "HTTP error! Status: " + NatToString(reply.Status())))
  }

  /** `/get_all_items`: the whole collection. */
  function GetAllItems(items: seq<Item>): (r: Response<seq<Item>>)
    ensures r.Ok? && r.value == items
  {
    Ok(items, "")
  }

  function ItemIds(items: seq<Item>): (ids: seq<nat>)
    ensures |ids| == |items| && forall i :: 0 <= i < |items| ==> ids[i] == items[i].id
  {
    seq(|items|, i requires 0 <= i < |items| => items[i].id)
  }

  function IdsOf(items: seq<Item>): set<nat>
  {
    set it | it in items :: it.id
  }

  lemma HasIdIffIn(items: seq<Item>, id: nat)
    ensures HasId(items, id) <==> id in IdsOf(items)
  {
    if id in IdsOf(items) {
      var it :| it in items && it.id == id;
      var i :| 0 <= i < |items| && items[i] == it;
    }
  }

  /** Dropping a row keeps the row ids distinct and loses only that id. */
  lemma WithoutIdKeepsIds(items: seq<Item>, id: nat)
    requires IdsUnique(items)
    ensures IdsUnique(WithoutId(items, id))
    ensures forall x :: HasId(WithoutId(items, id), x) <==> HasId(items, x) && x != id
  {
    if HasId(items, id) {
      var k :| 0 <= k < |items| && items[k].id == id;
      FilterRemovesOnlyFailure(items, k, (x: Item) => x.id != id);
      RemoveAtKeepsIds(items, k);
    } else {
      FilterAllPass(items, (x: Item) => x.id != id);
    }
  }

  /** `now` holds exactly the items of `before` whose ids were not deleted. */
  ghost predicate Kept(before: seq<Item>, now: seq<Item>, deleted: set<nat>)
  {
    forall x :: x in now <==> x in before && x.id !in deleted
  }

  /** An id not yet attempted is in the store iff it was there before the batch. */
  lemma StillPresent(before: seq<Item>, now: seq<Item>, deleted: set<nat>, id: nat)
    requires Kept(before, now, deleted) && id !in deleted
    ensures HasId(now, id) <==> id in IdsOf(before)
  {
    HasIdIffIn(now, id);
  }

  lemma KeptAfterStep(before: seq<Item>, prev: seq<Item>, now: seq<Item>, deleted: set<nat>, id: nat)
    requires Kept(before, prev, deleted)
    requires forall x :: x in now <==> x in prev && x.id != id
    ensures Kept(before, now, deleted + {id})
  {
  }

  /** One deletion of the batch: the error text of a failed request, or
      nothing when the item was deleted. */
  method DeleteOne(store: Store, id: nat) returns (failure: Option<string>)
    requires store.Valid()
    modifies store
    ensures store.Valid()
    ensures failure.None? <==> HasId(old(store.items), id)
    ensures failure.Some? ==> failure.value == ITEM_NOT_FOUND
    ensures forall x :: x in store.items <==> x in old(store.items) && x.id != id
  {
    var r := store.DeleteItem(id);
    if r.Ok? {
      failure := None;
    } else {
      failure := Some(r.error);
    }
  }

  /** The batch's deletions, one selected id after another. A deletion fails
      exactly when its item is not in the store. */
  method DeleteEach(store: Store, ids: set<nat>) returns (failures: seq<string>)
    requires store.Valid()
    modifies store
    ensures store.Valid()
    ensures forall x :: x in store.items <==> x in old(store.items) && x.id !in ids
    ensures |failures| == |ids - IdsOf(old(store.items))|
    ensures forall i :: 0 <= i < |failures| ==> failures[i] == ITEM_NOT_FOUND
  {
    failures := [];
    ghost var before := store.items;
    ghost var gone := IdsOf(before);
    ghost var done: set<nat> := {};
    var pending := ids;
    while pending != {}
      invariant pending <= ids && done == ids - pending
      invariant store.Valid()
      invariant Kept(before, store.items, done)
      invariant |failures| == |done - gone|
      invariant forall i :: 0 <= i < |failures| ==> failures[i] == ITEM_NOT_FOUND
      decreases |pending|
    {
      var id :| id in pending;
      StillPresent(before, store.items, done, id);
      ghost var prev := store.items;
      var failure := DeleteOne(store, id);
      KeptAfterStep(before, prev, store.items, done, id);
      if failure.None? {
        FailedSetUnchanged(done, gone, id);
      } else {
        FailedSetGrows(done, gone, id);
        failures := failures + [failure.value];
      }
      pending := pending - {id};
      done := done + {id};
    }
    NothingPending(ids, pending, done);
  }

  class ItemsPage {
    var items: seq<Item>
    var loading: bool
    var error: Option<string>
    var selectedItemIds: set<nat>

    /** Rows have distinct ids, and the selection only holds ids of listed rows. */
    ghost predicate Valid()
      reads this
    {
      IdsUnique(items) && forall id :: id in selectedItemIds ==> HasId(items, id)
    }

    constructor ()
      ensures Valid() && items == [] && loading && error == None && selectedItemIds == {}
    {
      items := [];
      loading := true;
      error := None;
      selectedItemIds := {};
    }

    /** The select-all box's checked state. */
    predicate AllSelected()
      reads this
    {
      IsAllSelected(|items|, selectedItemIds)
    }

    /** `fetchItems` given the reply of `/get_all_items`. */
    method FetchItems(reply: Response<seq<Item>>)
      requires IdsUnique(items) && (reply.Ok? ==> IdsUnique(reply.value))
      modifies this
      ensures IdsUnique(items) && !loading
      ensures items == (if reply.Ok? then reply.value else old(items))
      ensures error == FetchError(reply)
      ensures selectedItemIds == old(selectedItemIds)
      ensures old(selectedItemIds) == {} ==> Valid()
    {
      loading := true;
      error := None;
      if reply.Ok? {
        items := reply.value;
      } else {
        error := FetchError(reply);
      }
      loading := false;
    }

    method CheckboxChange(id: nat)
      requires Valid() && HasId(items, id)
      modifies this
      ensures Valid() && selectedItemIds == Toggle(old(selectedItemIds), id)
      ensures items == old(items) && error == old(error)
    {
      selectedItemIds := Toggle(selectedItemIds, id);
    }

    method SelectAllChange(checked: bool)
      requires Valid()
      modifies this
      ensures Valid() && selectedItemIds == SelectAll(ItemIds(items), checked)
      ensures checked && items != [] ==> AllSelected()
      ensures items == old(items) && error == old(error)
    {
      selectedItemIds := SelectAll(ItemIds(items), checked);
      forall id | id in selectedItemIds
        ensures HasId(items, id)
      {
        var i :| 0 <= i < |items| && ItemIds(items)[i] == id;
      }
      assert NoDuplicates(ItemIds(items));
      IsAllSelectedIff(ItemIds(items), selectedItemIds);
    }

    /** `handleDeleteItem`: `confirmed` is the answer to the confirmation
        dialog, `alert` the text shown afterwards. */
    method DeleteItem(store: Store, id: nat, confirmed: bool) returns (alert: Option<string>)
      requires Valid() && store.Valid()
      modifies this, store
      ensures Valid() && store.Valid() && error == old(error)
      ensures !confirmed ==> alert == None && unchanged(this) && unchanged(store)
      ensures confirmed && HasId(old(store.items), id) ==> (
        && alert == Some(ITEM_DELETED)
        && store.items == WithoutId(old(store.items), id)
        && items == WithoutId(old(items), id)
        && selectedItemIds == old(selectedItemIds) - {id})
      ensures confirmed && !HasId(old(store.items), id) ==> (
        && alert == Some(ITEM_NOT_FOUND)
        && store.items == old(store.items)
        && items == old(items) && selectedItemIds == old(selectedItemIds))
    {
      if !confirmed {
        return None;
      }
      var r := store.DeleteItem(id);
      if r.Ok? {
        WithoutIdKeepsIds(items, id);
        items := WithoutId(items, id);
        selectedItemIds := selectedItemIds - {id};
        alert := Some(ITEM_DELETED);
      } else {
        alert := Some(r.error);
      }
    }

    /** `handleDeleteSelectedItems`, one deletion after another, then the
        reload. `failures` holds the error text of every deletion that
        failed. */
    method DeleteSelected(store: Store, confirmed: bool) returns (alert: Option<string>, failures: seq<string>)
      requires Valid() && store.Valid()
      modifies this, store
      ensures Valid() && store.Valid()
      ensures old(selectedItemIds) == {} ==> alert == Some(NONE_SELECTED) && unchanged(this) && unchanged(store)
      ensures old(selectedItemIds) != {} && !confirmed ==> alert == None && unchanged(this) && unchanged(store)
      ensures old(selectedItemIds) != {} && confirmed ==> (
        // every selected id was attempted, and nothing else was removed
        && (forall x :: x in store.items <==> x in old(store.items) && x.id !in old(selectedItemIds))
        // a deletion fails exactly when its item was already gone
        && |failures| == |old(selectedItemIds) - IdsOf(old(store.items))|
        && (forall i :: 0 <= i < |failures| ==> failures[i] == ITEM_NOT_FOUND)
        && alert == (if failures == [] then Some(BATCH_DELETED) else None)
        && items == store.items
        // as written, the reload overwrites the failure report
        && error == BatchErrorAsWritten(NOUN, failures, None)
        && error == None
        && selectedItemIds == {} && !loading)
    {
      failures := [];
      if selectedItemIds == {} {
        return Some(NONE_SELECTED), failures;
      }
      if !confirmed {
        return None, failures;
      }
      loading := true;
      error := None;
      failures := DeleteEach(store, selectedItemIds);
      alert := FinishBatch(store.items, failures);
    }

    /** What the batch does once every deletion has answered, in the source's
        order: the failure report or the success alert, then the reload of the
        collection `stored`, which clears the error first, then the cleared
        selection. The failure report is therefore overwritten by the reload. */
    method FinishBatch(stored: seq<Item>, failures: seq<string>) returns (alert: Option<string>)
      requires IdsUnique(items) && IdsUnique(stored)
      modifies this
      ensures Valid() && !loading && selectedItemIds == {}
      ensures alert == (if failures == [] then Some(BATCH_DELETED) else None)
      ensures items == stored
      ensures error == BatchErrorAsWritten(NOUN, failures, None)
      ensures error == None
    {
      if failures != [] {
        error := Some(FailureText(NOUN, failures));
        alert := None;
      } else {
        alert := Some(BATCH_DELETED);
      }
      FetchItems(GetAllItems(stored));
      BatchFailureIsHidden(NOUN, failures, None);
      selectedItemIds := {};
      loading := false;
    }
  }
}
