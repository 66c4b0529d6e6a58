/**
 * The grocery item document and its schema defaults.
 *
 * Text fields use the empty string for a value that is missing, `null` or
 * `''`: every reader of an item treats those three alike, as falsy.
 */
module ItemModel {
  import opened Outcomes
  import opened Calendar

  /** The three values the schema's `schedule_type` enum admits. */
  datatype ScheduleType = Unscheduled | Regular | Specific

  /** The stored spelling of a schedule type. */
  function ScheduleName(t: ScheduleType): string
  {
    match t
    case Unscheduled => "none"
    case Regular => "regular"
    case Specific => "specific"
  }

  /** The enum validator: only the three stored spellings are accepted. */
  function ParseScheduleType(s: string): (r: Option<ScheduleType>)
    ensures r.Some? <==> s == "none" || s == "regular" || s == "specific"
    ensures r.Some? ==> ScheduleName(r.value) == s
  {
    if s == "none" then Some(Unscheduled)
    else if s == "regular" then Some(Regular)
    else if s == "specific" then Some(Specific)
    else None
  }

  lemma ScheduleNameRoundTrip(t: ScheduleType)
    ensures ParseScheduleType(ScheduleName(t)) == Some(t)
  {
  }

  /** One item document. `createdAt` and `updatedAt` are the store's timestamps. */
  datatype Item = Item(
    id: nat,
    itemName: string,
    itemQuantity: string,
    addedBy: string,
    itemDescription: string,
    isPurchased: bool,
    purchasedBy: Option<string>,
    dateBought: Option<Instant>,
    scheduleType: ScheduleType,
    regularDays: seq<string>,
    specificDate: Option<Instant>,
    createdAt: Instant,
    updatedAt: Instant)

  /** The schema's `required: true` paths; a required string may not be empty. */
  predicate HasRequiredFields(it: Item)
  {
    it.itemName != "" && it.itemQuantity != "" && it.addedBy != ""
  }

  predicate Purchased(it: Item) { it.isPurchased }
  predicate NotPurchased(it: Item) { !it.isPurchased }

  /** The document the schema builds when only the required paths are given:
      every optional path is absent and every defaulted path takes its default. */
  function SchemaDefaults(id: nat, itemName: string, itemQuantity: string, addedBy: string, now: Instant): (it: Item)
    ensures !it.isPurchased
    ensures it.scheduleType == Unscheduled && it.regularDays == []
    ensures it.purchasedBy == None && it.dateBought == None && it.specificDate == None
    ensures it.itemDescription == ""
    ensures it.createdAt == now && it.updatedAt == now
  {
    Item(id, itemName, itemQuantity, addedBy, "", false, None, None, Unscheduled, [], None, now, now)
  }

  predicate HasId(items: seq<Item>, id: nat)
  {
    exists i :: 0 <= i < |items| && items[i].id == id
  }

  /** Ids identify documents: no two items share one. */
  predicate IdsUnique(items: seq<Item>)
  {
    forall i, j :: 0 <= i < j < |items| ==> items[i].id != items[j].id
  }
}
