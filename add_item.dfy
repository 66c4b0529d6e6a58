/**
 * The `/add_new_item` route: the required-field check and the defaulting of
 * the optional fields before the new document is saved.
 */
module AddItem {
  import opened Outcomes
  import opened Calendar
  import opened ItemModel

  const MISSING_FIELDS_ERROR: string := "Item name, quantity, and added by are required."
  const ITEM_ADDED: string := "Item added successfully."
  const SERVER_ERROR: string := "Server error. Please try again later."

  /** The request body. An empty string stands for a field left out;
      `regularDays` left out is the empty list. */
  datatype NewItemRequest = NewItemRequest(
    itemName: string,
    itemQuantity: string,
    addedBy: string,
    itemDescription: string,
    scheduleType: string,
    regularDays: seq<string>,
    specificDate: Option<Instant>)

  /** `!item_name || !item_quantity || !added_by`. */
  predicate MissingRequired(req: NewItemRequest)
  {
    req.itemName == "" || req.itemQuantity == "" || req.addedBy == ""
  }

  /** `schedule_type || 'none'`, the value handed to the enum validator. */
  function RequestedSchedule(req: NewItemRequest): string
  {
    OrElse(req.scheduleType, "none")
  }

  /** What the route does with a request: reject it, or build the document that
      `save()` stores under `id` at time `now`. A schedule type outside the enum
      passes the route but fails the schema's validator inside `save()`, which the
      route reports as a server error. */
  function Admit(req: NewItemRequest, id: nat, now: Instant): (r: Response<Item>)
    ensures r.BadRequest? <==> MissingRequired(req)
    ensures r.BadRequest? ==> r.error == MISSING_FIELDS_ERROR
    ensures r.ServerError? <==> !MissingRequired(req) && ParseScheduleType(RequestedSchedule(req)).None?
    ensures r.ServerError? ==> r.error == SERVER_ERROR
    ensures !r.NotFound?
    ensures r.Ok? ==> r.message == ITEM_ADDED && HasRequiredFields(r.value)
    // the purchase fields always start cleared
    ensures r.Ok? ==> !r.value.isPurchased && r.value.purchasedBy == None && r.value.dateBought == None
    // supplied values are stored verbatim; absent ones take the defaults
    ensures r.Ok? ==> (
      && r.value.id == id && r.value.itemName == req.itemName
      && r.value.itemQuantity == req.itemQuantity && r.value.addedBy == req.addedBy
      && r.value.itemDescription == req.itemDescription
      && ScheduleName(r.value.scheduleType) == RequestedSchedule(req)
      && r.value.regularDays == req.regularDays && r.value.specificDate == req.specificDate)
    ensures r.Ok? ==> r.value.createdAt == now && r.value.updatedAt == now
  {
    if MissingRequired(req) then BadRequest(MISSING_FIELDS_ERROR)
    else
      match ParseScheduleType(RequestedSchedule(req))
      case None => ServerError(SERVER_ERROR)
      case Some(t) =>
        Ok(Item(id, req.itemName, req.itemQuantity, req.addedBy,
                OrElse(req.itemDescription, ""), false, None, None,
                t, req.regularDays, req.specificDate, now, now),
           ITEM_ADDED)
  }

  /** A request carrying only the required fields yields exactly the document
      the schema's own defaults would build. */
  lemma RouteDefaultsAgreeWithSchema(name: string, quantity: string, addedBy: string, id: nat, now: Instant)
    requires name != "" && quantity != "" && addedBy != ""
    ensures Admit(NewItemRequest(name, quantity, addedBy, "", "", [], None), id, now)
         == Ok(SchemaDefaults(id, name, quantity, addedBy, now), ITEM_ADDED)
  {
  }

  /** No cross-check between the schedule type and its payload: a regular item
      without days and a specific item without a date are both accepted. */
  lemma InconsistentSchedulesAccepted(name: string, quantity: string, addedBy: string, id: nat, now: Instant)
    requires name != "" && quantity != "" && addedBy != ""
    ensures Admit(NewItemRequest(name, quantity, addedBy, "", "regular", [], None), id, now).Ok?
    ensures Admit(NewItemRequest(name, quantity, addedBy, "", "specific", [], None), id, now).Ok?
  {
  }
}
