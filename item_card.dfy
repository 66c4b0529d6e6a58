/**
 * The mobile item card: what it shows for an item, whose item it is, which
 * schedule badges appear and which id the buttons report.
 */
module ItemCard {
  import opened Outcomes
  import opened Calendar
  import opened Text

  const NAME_FALLBACK: string := "N/A Item Name"
  const QUANTITY_FALLBACK: string := "N/A Quantity"
  const OWNER_FALLBACK: string := "Unknown"
  const DESCRIPTION_FALLBACK: string := "No description provided"
  const YOU: string := "You"
  const DAY_SEPARATOR: string := ", "

  /** The item as the card receives it from JSON; an empty string stands for a
      missing or falsy field. `mongoId` is `_id`, `id` the alternative key. */
  datatype CardItem = CardItem(
    mongoId: string,
    id: string,
    itemName: string,
    itemQuantity: string,
    addedBy: string,
    itemDescription: string,
    scheduleType: string,
    regularDays: seq<string>,
    specificDate: Option<Instant>)

  /** What the card renders. `plannedFor` carries the date whose locale
      rendering the badge shows. */
  datatype Card = Card(
    title: string,
    quantity: string,
    addedByLabel: string,
    description: string,
    repeatsOn: Option<string>,
    plannedFor: Option<Instant>,
    deleteDisabled: bool,
    boughtDisabled: bool,
    callbackId: string)

  /** The owner as the card sees it: `added_by`, or `'Unknown'`. */
  function Owner(item: CardItem): string
  {
    OrElse(item.addedBy, OWNER_FALLBACK)
  }

  /** `ItemCard` for a possibly null item and the signed-in user. */
  function RenderCard(item: Option<CardItem>, loggedInUserName: string): (c: Option<Card>)
    ensures c.None? <==> item.None?
    ensures c.Some? ==> (
      var it := item.value;
      && c.value.title == OrElse(it.itemName, NAME_FALLBACK)
      && c.value.quantity == OrElse(it.itemQuantity, QUANTITY_FALLBACK)
      && c.value.description == OrElse(it.itemDescription, DESCRIPTION_FALLBACK)
      // "You" for the owner, the owner's name for anyone else
      && (loggedInUserName == Owner(it) ==> c.value.addedByLabel == YOU)
      && (loggedInUserName != Owner(it) ==> c.value.addedByLabel == Owner(it))
      // only the owner may delete; anyone may mark bought
      && (c.value.deleteDisabled <==> loggedInUserName != Owner(it))
      && !c.value.boughtDisabled
      && (c.value.repeatsOn.Some? <==> it.scheduleType == "regular" && it.regularDays != [])
      && (c.value.repeatsOn.Some? ==> c.value.repeatsOn.value == Join(it.regularDays, DAY_SEPARATOR))
      && (c.value.plannedFor.Some? <==> it.scheduleType == "specific" && it.specificDate.Some?)
      && (c.value.plannedFor.Some? ==> c.value.plannedFor == it.specificDate)
      && c.value.callbackId == (if it.mongoId != "" then it.mongoId else it.id))
  {
    match item
    case None => None
    case Some(it) =>
      var owner := Owner(it);
      var isNotOwner := loggedInUserName != owner;
      Some(Card(
        OrElse(it.itemName, NAME_FALLBACK),
        OrElse(it.itemQuantity, QUANTITY_FALLBACK),
        if isNotOwner then owner else YOU,
        OrElse(it.itemDescription, DESCRIPTION_FALLBACK),
        if it.scheduleType == "regular" && |it.regularDays| > 0 then Some(Join(it.regularDays, DAY_SEPARATOR)) else None,
        if it.scheduleType == "specific" && it.specificDate.Some? then it.specificDate else None,
        isNotOwner,
        false,
        OrElse(it.mongoId, it.id)))
  }

  /** At most one schedule badge is shown. */
  lemma OneBadgeAtMost(item: CardItem, loggedInUserName: string)
    ensures var c := RenderCard(Some(item), loggedInUserName).value;
      !(c.repeatsOn.Some? && c.plannedFor.Some?)
  {
  }

  /** The ownership test runs on the fallback text, so an item without an owner
      can be deleted by a user whose name is literally `Unknown`, and by nobody
      else. */
  lemma OwnerlessItemBelongsToUnknown(item: CardItem, loggedInUserName: string)
    requires item.addedBy == ""
    ensures !RenderCard(Some(item), loggedInUserName).value.deleteDisabled <==> loggedInUserName == "Unknown"
  {
  }
}
