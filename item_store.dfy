/**
 * The `items` collection and the three routes that write it:
 * `/add_new_item`, `/mark_item_bought/:_id` and `/delete_item/:_id`.
 */
module ItemStore {
  import opened Outcomes
  import opened Calendar
  import opened Sequences
  import opened ItemModel
  import opened AddItem
  import opened MarkBought

  const ITEM_DELETED: string := "Item deleted successfully!"

  /** The collection without the document whose id is `id`. */
  function WithoutId(items: seq<Item>, id: nat): (r: seq<Item>)
    ensures forall x :: x in r <==> x in items && x.id != id
    ensures IsSubsequence(r, items)
  {
    FilterIsSubsequence(items, (x: Item) => x.id != id);
    Filter(items, (x: Item) => x.id != id)
  }

  /** With unique ids, removing an id that is present removes exactly one document. */
  lemma WithoutPresentId(items: seq<Item>, k: nat)
    requires IdsUnique(items) && k < |items|
    ensures WithoutId(items, items[k].id) == items[..k] + items[k + 1..]
    ensures |WithoutId(items, items[k].id)| == |items| - 1
  {
    FilterRemovesOnlyFailure(items, k, (x: Item) => x.id != items[k].id);
  }

  /** Removing the document at `k` keeps the ids distinct and loses only its id. */
  lemma RemoveAtKeepsIds(items: seq<Item>, k: nat)
    requires IdsUnique(items) && k < |items|
    ensures var r := items[..k] + items[k + 1..];
      && IdsUnique(r)
      && forall x :: HasId(r, x) <==> HasId(items, x) && x != items[k].id
  {
    var r := items[..k] + items[k + 1..];
    assert forall i :: 0 <= i < |r| ==> r[i] == items[if i < k then i else i + 1];
    forall x | HasId(items, x) && x != items[k].id
      ensures HasId(r, x)
    {
      var i :| 0 <= i < |items| && items[i].id == x;
      assert r[if i < k then i else i - 1].id == x;
    }
  }

  /** Removing one document keeps the store's invariant. */
  lemma RemoveAtKeepsValid(items: seq<Item>, k: nat, bound: nat)
    requires IdsUnique(items) && k < |items|
    requires forall i :: 0 <= i < |items| ==> items[i].id < bound && HasRequiredFields(items[i])
    ensures var r := items[..k] + items[k + 1..];
      && IdsUnique(r)
      && (forall i :: 0 <= i < |r| ==> r[i].id < bound && HasRequiredFields(r[i]))
      && !HasId(r, items[k].id)
  {
    var r := items[..k] + items[k + 1..];
    assert forall i :: 0 <= i < |r| ==> r[i] == items[if i < k then i else i + 1];
    RemoveAtKeepsIds(items, k);
  }

  /** Ids are assigned from a counter, so a fresh id is never reused. */
  class Store {
    var items: seq<Item>
    var nextId: nat

    ghost predicate Valid()
      reads this
    {
      && IdsUnique(items)
      && forall i :: 0 <= i < |items| ==> items[i].id < nextId && HasRequiredFields(items[i])
    }

    constructor ()
      ensures Valid() && items == [] && nextId == 0
    {
      items := [];
      nextId := 0;
    }

    /** `/add_new_item`: validate, default, and insert one document. */
    method AddNewItem(req: NewItemRequest, now: Instant) returns (r: Response<nat>)
      requires Valid()
      modifies this
      ensures Valid()
      ensures var a := Admit(req, old(nextId), now);
        if a.Ok? then
          r == Ok(old(nextId), ITEM_ADDED) && items == old(items) + [a.value] && nextId == old(nextId) + 1
        else
          r == a.Forward() && items == old(items) && nextId == old(nextId)
    {
      var a := Admit(req, nextId, now);
      if a.Ok? {
        items := items + [a.value];
        r := Ok(nextId, ITEM_ADDED);
        nextId := nextId + 1;
      } else {
        r := a.Forward();
      }
    }

    /** `/mark_item_bought/:_id`: the status check comes before the lookup. */
    method MarkItemBought(id: nat, isPurchased: Option<bool>, purchasedBy: string, now: Instant)
      returns (r: Response<Item>)
      requires Valid()
      modifies this
      ensures Valid() && nextId == old(nextId)
      ensures isPurchased.None? ==> r == BadRequest(STATUS_REQUIRED) && items == old(items)
      ensures isPurchased.Some? && !HasId(old(items), id) ==> r == NotFound(ITEM_NOT_FOUND) && items == old(items)
      ensures isPurchased.Some? && HasId(old(items), id) ==> (
        && r.Ok? && r.message == ITEM_UPDATED
        && r.value.id == id && r.value in items
        && exists i :: 0 <= i < |old(items)| && old(items)[i].id == id
             && r.value == Marked(old(items)[i], isPurchased.value, purchasedBy, now))
      ensures isPurchased.Some? && HasId(old(items), id) ==> (
        && |items| == |old(items)|
        && forall i :: 0 <= i < |items| ==>
             items[i] == if old(items)[i].id == id
                         then Marked(old(items)[i], isPurchased.value, purchasedBy, now)
                         else old(items)[i])
    {
      if isPurchased.None? {
        return BadRequest(STATUS_REQUIRED);
      }
      var k := IndexWhere(items, (x: Item) => x.id == id);
      if k < 0 {
        return NotFound(ITEM_NOT_FOUND);
      }
      var updated := Marked(items[k], isPurchased.value, purchasedBy, now);
      items := items[k := updated];
      assert items[k] == updated;
      r := Ok(updated, ITEM_UPDATED);
    }

    /** `/delete_item/:_id`: a hard delete that returns the removed document. */
    method DeleteItem(id: nat) returns (r: Response<Item>)
      requires Valid()
      modifies this
      ensures Valid() && nextId == old(nextId)
      ensures r.Ok? <==> HasId(old(items), id)
      ensures !r.Ok? ==> r == NotFound(ITEM_NOT_FOUND) && items == old(items)
      ensures r.Ok? ==> (
        && r.message == ITEM_DELETED && r.value.id == id && r.value in old(items)
        && items == WithoutId(old(items), id)
        && |items| == |old(items)| - 1
        && !HasId(items, id))
    {
      var k := IndexWhere(items, (x: Item) => x.id == id);
      if k < 0 {
        return NotFound(ITEM_NOT_FOUND);
      }
      var gone := items[k];
      WithoutPresentId(items, k);
      RemoveAtKeepsValid(items, k, nextId);
      items := items[..k] + items[k + 1..];
      r := Ok(gone, ITEM_DELETED);
    }
  }
}
