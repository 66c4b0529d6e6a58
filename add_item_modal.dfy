/**
 * The mobile "Add New Item" modal: the weekday chips, the Regular / Specific
 * schedule buttons, the 90-day date picker, the ordered submit guards and the
 * request body it posts to `/add_new_item`.
 */
module AddItemModal {
  import opened Outcomes
  import opened Calendar
  import opened Sequences
  import opened ItemModel
  import opened AddItem
  import opened ItemStore
  import opened ActiveItems

  /** The chips offered, Monday first. */
  const DAYS_OF_WEEK: seq<string> :=
    ["Monday", "Tuesday", "Wednesday", "Thursday", "Friday", "Saturday", "Sunday"]

  const NAME_QUANTITY_REQUIRED: string := "Please enter item name and quantity."
  const DAY_REQUIRED: string := "Please select at least one day."
  const DATE_REQUIRED: string := "Please select a future date."
  const ADD_FAILED: string := "Failed to add item."
  const UPCOMING_DAYS: nat := 90

  /** A chip's day is the server's weekday one step further on in the Sunday-first
      table, so every chip names a day the server can match. */
  lemma ChipsAreServerWeekdays()
    ensures forall k :: 0 <= k < 7 ==> DAYS_OF_WEEK[k] == WEEKDAY_NAMES[(k + 1) % 7]
    ensures forall d :: d in DAYS_OF_WEEK <==> d in WEEKDAY_NAMES
  {
    assert forall k :: 0 <= k < 7 ==> DAYS_OF_WEEK[k] == WEEKDAY_NAMES[(k + 1) % 7];
    forall d | d in WEEKDAY_NAMES
      ensures d in DAYS_OF_WEEK
    {
      var w :| 0 <= w < 7 && WEEKDAY_NAMES[w] == d;
      assert DAYS_OF_WEEK[(w + 6) % 7] == d;
    }
  }

  /** `toggleDay`: a selected day is removed, any other day is appended. */
  function ToggleDay(days: seq<string>, day: string): (r: seq<string>)
    ensures day in r <==> day !in days
    ensures forall d :: d != day ==> (d in r <==> d in days)
    ensures day !in days ==> r == days + [day]
    ensures day in days ==> IsSubsequence(r, days) && |r| < |days|
  {
    if day in days then
      FilterIsSubsequence(days, (d: string) => d != day);
      ghost var k :| 0 <= k < |days| && days[k] == day;
      FilterPartition(days, (d: string) => d != day, (d: string) => d == day);
      assert days[k] in Filter(days, (d: string) => d == day);
      Filter(days, (d: string) => d != day)
    else
      days + [day]
  }

  lemma ToggleKeepsNoDuplicates(days: seq<string>, day: string)
    requires NoDuplicates(days)
    ensures NoDuplicates(ToggleDay(days, day))
  {
    if day in days {
      SubsequenceKeepsNoDuplicates(ToggleDay(days, day), days);
    }
  }

  /** Toggling an unselected day on and off again gives back the same list. */
  lemma ToggleTwiceRestores(days: seq<string>, day: string)
    requires day !in days
    ensures ToggleDay(ToggleDay(days, day), day) == days
  {
    FilterDistributes(days, [day], (d: string) => d != day);
    FilterAllPass(days, (d: string) => d != day);
  }

  /** The Regular and Specific buttons:
      `scheduleType === button ? 'none' : button`. */
  function Press(scheduleType: string, button: string): (r: string)
    requires button == "regular" || button == "specific"
    ensures r == button <==> scheduleType != button
    ensures r == "none" || r == button
  {
    if scheduleType == button then "none" else button
  }

  /** The buttons only ever produce values the schema's enum accepts. */
  lemma ButtonsStayInEnum(scheduleType: string)
    ensures ParseScheduleType(Press(scheduleType, "regular")).Some?
    ensures ParseScheduleType(Press(scheduleType, "specific")).Some?
  {
  }

  /** `getUpcomingDates`: the same time of day on each of the next 90 days. */
  method GetUpcomingDates(today: Instant) returns (dates: seq<Instant>)
    ensures |dates| == UPCOMING_DAYS
    ensures forall i :: 0 <= i < |dates| ==> dates[i] == AddDays(today, i + 1)
    ensures forall i, j :: 0 <= i < j < |dates| ==> Millis(dates[i]) < Millis(dates[j])
    ensures forall i :: 0 <= i < |dates| ==> today.day < dates[i].day <= today.day + UPCOMING_DAYS
  {
    dates := [];
    var i := 1;
    while i <= UPCOMING_DAYS
      invariant 1 <= i <= UPCOMING_DAYS + 1
      invariant |dates| == i - 1
      invariant forall k :: 0 <= k < |dates| ==> dates[k] == AddDays(today, k + 1)
    {
      dates := dates + [AddDays(today, i)];
      i := i + 1;
    }
  }

  /** The guards of `handleSubmit`, first failure wins. */
  function SubmitError(itemName: string, itemQuantity: string, scheduleType: string,
                       selectedDays: seq<string>, specificDate: Option<Instant>): (r: Option<string>)
    ensures r == Some(NAME_QUANTITY_REQUIRED) <==> itemName == "" || itemQuantity == ""
    ensures r == Some(DAY_REQUIRED) <==>
      itemName != "" && itemQuantity != "" && scheduleType == "regular" && selectedDays == []
    ensures r == Some(DATE_REQUIRED) <==>
      itemName != "" && itemQuantity != "" && scheduleType == "specific" && specificDate.None?
    ensures r.None? <==> (
      && itemName != "" && itemQuantity != ""
      && (scheduleType == "regular" ==> selectedDays != [])
      && (scheduleType == "specific" ==> specificDate.Some?))
  {
    if itemName == "" || itemQuantity == "" then Some(NAME_QUANTITY_REQUIRED)
    else if scheduleType == "regular" && selectedDays == [] then Some(DAY_REQUIRED)
    else if scheduleType == "specific" && specificDate.None? then Some(DATE_REQUIRED)
    else None
  }

  /** The posted body: the days only for a regular schedule, the date only for a
      specific one. */
  function SubmitPayload(itemName: string, itemQuantity: string, userName: string, itemDescription: string,
                         scheduleType: string, selectedDays: seq<string>, specificDate: Option<Instant>)
    : (req: NewItemRequest)
    ensures req.itemName == itemName && req.itemQuantity == itemQuantity && req.addedBy == userName
    ensures req.itemDescription == itemDescription && req.scheduleType == scheduleType
    ensures req.regularDays == (if scheduleType == "regular" then selectedDays else [])
    ensures req.specificDate == (if scheduleType == "specific" then specificDate else None)
  {
    NewItemRequest(itemName, itemQuantity, userName, itemDescription, scheduleType,
                   if scheduleType == "regular" then selectedDays else [],
                   if scheduleType == "specific" then specificDate else None)
  }

  /** A form that passes the guards, from a signed-in user with a schedule the
      buttons produced, is stored, and the stored schedule is consistent: a
      regular item has days, a specific item has a date, and the other kinds'
      fields are empty. */
  lemma AcceptedFormIsConsistent(itemName: string, itemQuantity: string, userName: string, itemDescription: string,
                                 scheduleType: string, selectedDays: seq<string>, specificDate: Option<Instant>,
                                 id: nat, now: Instant)
    requires SubmitError(itemName, itemQuantity, scheduleType, selectedDays, specificDate).None?
    requires userName != "" && ParseScheduleType(scheduleType).Some?
    ensures var r := Admit(SubmitPayload(itemName, itemQuantity, userName, itemDescription,
                                         scheduleType, selectedDays, specificDate), id, now);
      && r.Ok?
      && (r.value.scheduleType == Regular <==> scheduleType == "regular")
      && (r.value.scheduleType == Regular ==> r.value.regularDays == selectedDays != [] && r.value.specificDate.None?)
      && (r.value.scheduleType == Specific ==> r.value.specificDate == specificDate && specificDate.Some? && r.value.regularDays == [])
      && (r.value.scheduleType == Unscheduled ==> r.value.regularDays == [] && r.value.specificDate.None?)
  {
    var req := SubmitPayload(itemName, itemQuantity, userName, itemDescription, scheduleType, selectedDays, specificDate);
    assert RequestedSchedule(req) == scheduleType;
  }

  class AddItemModal {
    var itemName: string
    var itemQuantity: string
    var itemDescription: string
    var scheduleType: string
    var selectedDays: seq<string>
    var specificDate: Option<Instant>
    var isSaving: bool
    var error: string
    const loggedInUserName: string

    /** The schedule is always one the enum accepts, and the chips keep the
        selected days distinct weekday names. */
    ghost predicate Valid()
      reads this
    {
      && ParseScheduleType(scheduleType).Some?
      && NoDuplicates(selectedDays)
      && forall d :: d in selectedDays ==> d in DAYS_OF_WEEK
    }

    /** The values the user has entered. */
    ghost function Form(): (string, string, string, string, seq<string>, Option<Instant>)
      reads this
    {
      (itemName, itemQuantity, itemDescription, scheduleType, selectedDays, specificDate)
    }

    ghost predicate IsReset()
      reads this
    {
      && itemName == "" && itemQuantity == "" && itemDescription == ""
      && scheduleType == "none" && selectedDays == [] && specificDate == None && error == ""
    }

    constructor (loggedInUserName: string)
      ensures Valid() && IsReset() && !isSaving && this.loggedInUserName == loggedInUserName
    {
      itemName := "";
      itemQuantity := "";
      itemDescription := "";
      scheduleType := "none";
      selectedDays := [];
      specificDate := None;
      isSaving := false;
      error := "";
      this.loggedInUserName := loggedInUserName;
    }

    /** `resetForm`: every form field back to its initial value. */
    method ResetForm()
      modifies this
      ensures Valid() && IsReset() && isSaving == old(isSaving)
    {
      itemName := "";
      itemQuantity := "";
      itemDescription := "";
      scheduleType := "none";
      selectedDays := [];
      specificDate := None;
      error := "";
    }

    /** The `isVisible` effect: hiding the modal resets the form. */
    method VisibilityChanged(isVisible: bool)
      requires Valid()
      modifies this
      ensures Valid() && isSaving == old(isSaving)
      ensures !isVisible ==> IsReset()
      ensures isVisible ==> unchanged(this)
    {
      if !isVisible {
        ResetForm();
      }
    }

    /** A tap on a weekday chip. */
    method TapDay(day: string)
      requires Valid() && day in DAYS_OF_WEEK
      modifies this
      ensures Valid() && selectedDays == ToggleDay(old(selectedDays), day)
      ensures scheduleType == old(scheduleType) && specificDate == old(specificDate)
    {
      ToggleKeepsNoDuplicates(selectedDays, day);
      selectedDays := ToggleDay(selectedDays, day);
    }

    /** A tap on the Regular or the Specific button. */
    method TapSchedule(button: string)
      requires Valid() && (button == "regular" || button == "specific")
      modifies this
      ensures Valid() && scheduleType == Press(old(scheduleType), button)
      ensures selectedDays == old(selectedDays) && specificDate == old(specificDate)
    {
      scheduleType := Press(scheduleType, button);
    }

    /** A tap on one of the upcoming dates. */
    method TapDate(date: Instant)
      requires Valid()
      modifies this
      ensures Valid() && specificDate == Some(date)
      ensures scheduleType == old(scheduleType) && selectedDays == old(selectedDays)
    {
      specificDate := Some(date);
    }

    /** `handleSubmit` against the store; `closed` says whether the modal closes.
        The route's failure replies carry `error` rather than `message`, so a
        rejected request shows the fixed fallback text. */
    method HandleSubmit(store: Store, now: Instant) returns (closed: bool)
      requires Valid() && store.Valid()
      modifies this, store
      ensures Valid() && store.Valid() && !isSaving
      ensures var guard := SubmitError(old(itemName), old(itemQuantity), old(scheduleType),
                                       old(selectedDays), old(specificDate));
        && (guard.Some? ==> !closed && error == guard.value && unchanged(store) && Form() == old(Form()))
        && (guard.None? ==>
              var a := Admit(SubmitPayload(old(itemName), old(itemQuantity), loggedInUserName, old(itemDescription),
                                           old(scheduleType), old(selectedDays), old(specificDate)),
                             old(store.nextId), now);
              && (a.Ok? ==> closed && IsReset() && store.items == old(store.items) + [a.value])
              && (!a.Ok? ==> !closed && error == ADD_FAILED && store.items == old(store.items)
                             && Form() == old(Form())))
    {
      error := "";
      isSaving := true;
      var guard := SubmitError(itemName, itemQuantity, scheduleType, selectedDays, specificDate);
      if guard.Some? {
        error := guard.value;
        isSaving := false;
        return false;
      }
      var r := store.AddNewItem(SubmitPayload(itemName, itemQuantity, loggedInUserName, itemDescription,
                                              scheduleType, selectedDays, specificDate), now);
      if r.Ok? {
        ResetForm();
        closed := true;
      } else {
        error := ADD_FAILED;
        closed := false;
      }
      isSaving := false;
    }
  }
}
