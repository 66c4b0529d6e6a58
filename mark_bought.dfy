/**
 * The `/mark_item_bought/:_id` route's update rules: which fields the `$set`
 * document carries for each combination of `is_purchased` and `purchased_by`.
 */
module MarkBought {
  import opened Outcomes
  import opened Calendar
  import opened ItemModel

  const STATUS_REQUIRED: string := "is_purchased status is required."
  const ITEM_NOT_FOUND: string := "Item not found."
  const ITEM_UPDATED: string := "Item updated successfully"

  /** The `updateData` object. A field that is `None` here is not in the `$set`. */
  datatype Patch = Patch(
    isPurchased: bool,
    purchasedBy: Option<Option<string>>,
    dateBought: Option<Option<Instant>>)

  /** Builds `updateData` from the request (an empty `purchasedBy` is falsy). */
  function BuildPatch(isPurchased: bool, purchasedBy: string, now: Instant): (p: Patch)
    ensures p.isPurchased == isPurchased
    ensures p.purchasedBy.Some? <==> p.dateBought.Some?
    // bought, with a buyer: both are set
    ensures isPurchased && purchasedBy != "" ==>
      p.purchasedBy == Some(Some(purchasedBy)) && p.dateBought == Some(Some(now))
    // not bought: both are set to null
    ensures !isPurchased ==> p.purchasedBy == Some(None) && p.dateBought == Some(None)
    // bought, without a buyer: neither is in the `$set`
    ensures isPurchased && purchasedBy == "" ==> p.purchasedBy == None && p.dateBought == None
  {
    var p := Patch(isPurchased, None, None);
    if isPurchased && purchasedBy != "" then
      p.(purchasedBy := Some(Some(purchasedBy)), dateBought := Some(Some(now)))
    else if !isPurchased then
      p.(purchasedBy := Some(None), dateBought := Some(None))
    else
      p
  }

  /** `$set` of the patch; the store also refreshes `updatedAt`. */
  function ApplyPatch(it: Item, p: Patch, now: Instant): Item
  {
    it.(isPurchased := p.isPurchased,
        purchasedBy := if p.purchasedBy.Some? then p.purchasedBy.value else it.purchasedBy,
        dateBought := if p.dateBought.Some? then p.dateBought.value else it.dateBought,
        updatedAt := now)
  }

  /** Only the three purchase fields and the update timestamp may differ. */
  predicate SameExceptPurchase(a: Item, b: Item)
  {
    a.(isPurchased := b.isPurchased, purchasedBy := b.purchasedBy,
       dateBought := b.dateBought, updatedAt := b.updatedAt) == b
  }

  /** The document after the update, for an item found by id. */
  function Marked(it: Item, isPurchased: bool, purchasedBy: string, now: Instant): (r: Item)
    ensures SameExceptPurchase(it, r) && r.updatedAt == now
    ensures r.isPurchased == isPurchased
    // bought, with a buyer: buyer and date recorded
    ensures isPurchased && purchasedBy != "" ==> r.purchasedBy == Some(purchasedBy) && r.dateBought == Some(now)
    // bought, without a buyer: earlier buyer and date kept
    ensures isPurchased && purchasedBy == "" ==> r.purchasedBy == it.purchasedBy && r.dateBought == it.dateBought
    // not bought: buyer and date cleared
    ensures !isPurchased ==> r.purchasedBy == None && r.dateBought == None
  {
    ApplyPatch(it, BuildPatch(isPurchased, purchasedBy, now), now)
  }

  /** Marking bought twice: the later buyer and date win. */
  lemma LastWriteWins(it: Item, first: string, t1: Instant, second: string, t2: Instant)
    requires first != "" && second != ""
    ensures Marked(Marked(it, true, first, t1), true, second, t2).purchasedBy == Some(second)
    ensures Marked(Marked(it, true, first, t1), true, second, t2).dateBought == Some(t2)
  {
  }

  /** Undoing a purchase clears the purchase fields and otherwise restores the
      document, whatever the purchase had recorded. */
  lemma UnmarkRestores(it: Item, buyer: string, t1: Instant, anyone: string, t2: Instant)
    requires !it.isPurchased && it.purchasedBy == None && it.dateBought == None
    ensures Marked(Marked(it, true, buyer, t1), false, anyone, t2) == it.(updatedAt := t2)
  {
  }
}
