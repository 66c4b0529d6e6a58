/**
 * The admin "User Management" page: the joining-date format, the row
 * selection and password visibility sets, and single and batch deletes
 * against the user table followed by a reload from `/read_users`.
 */
module UserPage {
  import opened Outcomes
  import opened Sequences
  import opened Text
  import opened Accounts
  import opened Selection

  const NOT_AVAILABLE: string := "N/A"
  const PASSWORD_MASK: string := "********"
  const NO_USERS: string := "No users found."
  const NONE_SELECTED: string := "No users selected for deletion."
  const BATCH_DELETED: string := "Selected users deleted successfully!"
  const NOUN: string := "user"

  type DayOfMonth = d: int | 1 <= d <= 31 witness 1

  /** `getDaySuffix`. */
  function DaySuffix(d: DayOfMonth): (s: string)
    ensures s == "st" || s == "nd" || s == "rd" || s == "th"
    ensures 4 <= d <= 20 ==> s == "th"
    ensures s == "st" <==> d == 1 || d == 21 || d == 31
    ensures s == "nd" <==> d == 2 || d == 22
    ensures s == "rd" <==> d == 3 || d == 23
  {
    if d > 3 && d < 21 then "th"
    else if d % 10 == 1 then "st"
    else if d % 10 == 2 then "nd"
    else if d % 10 == 3 then "rd"
    else "th"
  }

  /** The English ordinal rule for any non-negative number: "th" for 11, 12
      and 13 of each hundred, otherwise by the last digit. */
  function OrdinalSuffix(n: nat): string
  {
    if 11 <= n % 100 <= 13 then "th"
    else if n % 10 == 1 then "st"
    else if n % 10 == 2 then "nd"
    else if n % 10 == 3 then "rd"
    else "th"
  }

  /** On the days a month can have, the shortcut `d > 3 && d < 21` agrees
      with the full rule. */
  lemma DaySuffixIsOrdinal(d: DayOfMonth)
    ensures DaySuffix(d) == OrdinalSuffix(d)
  {
  }

  /** `joining_date` as the page sees it: absent or falsy, text `new Date`
      cannot parse, or a date with the values of `getDate()`, the en-GB long
      month name and `getFullYear()`. */
  datatype DateText = NoDate | Unparseable(raw: string) | Parsed(day: DayOfMonth, month: string, year: int)

  /** `formatDate`, e.g. "26th May 2025". */
  function FormatDate(d: DateText): (s: string)
    ensures d.NoDate? ==> s == NOT_AVAILABLE
    ensures d.Unparseable? ==> s == d.raw
    ensures d.Parsed? ==> s == NatToString(d.day) + DaySuffix(d.day) + " " + d.month + " " + IntToString(d.year)
  {
    match d
    case NoDate => NOT_AVAILABLE
    case Unparseable(raw) => raw
    case Parsed(day, month, year) =>
      NatToString(day) + DaySuffix(day) + " " + month + " " + IntToString(year)
  }

  /** The day of the month can be read back from the front of the text. */
  lemma FormattedDayReadsBack(d: DateText)
    requires d.Parsed?
    ensures ParseNat(LeadingDigits(FormatDate(d))) == d.day
  {
    var digits := NatToString(d.day);
    var rest := DaySuffix(d.day) + " " + d.month + " " + IntToString(d.year);
    assert FormatDate(d) == digits + rest;
    LeadingDigitsOfDigits(digits, rest);
    NatToStringRoundTrip(d.day);
  }

  /** `/read_users`: an empty table is answered with 404. */
  function ReadUsers(accounts: seq<Account>): (r: Response<seq<Account>>)
    ensures r.Ok? <==> accounts != []
    ensures r.Ok? ==> r.value == accounts
    ensures !r.Ok? ==> r == NotFound(NO_USERS)
  {
    if |accounts| == 0 then NotFound(NO_USERS) else Ok(accounts, "")
  }

  /** The error `fetchUsers` sets for a reply. */
  function FetchError(reply: Response<seq<Account>>): (e: Option<string>)
    ensures e.None? <==> reply.Ok?
    ensures !reply.Ok? && reply.error != "" ==> e == Some(reply.error)
    ensures !reply.Ok? && reply.error == "" ==> e == Some("HTTP error! status: " + NatToString(reply.Status()))
  {
    if reply.Ok? then None
    else Some(OrElse(reply.error, "HTTP error! status: " + NatToString(reply.Status())))
  }

  function AccountIds(users: seq<Account>): (ids: seq<nat>)
    ensures |ids| == |users| && forall i :: 0 <= i < |users| ==> ids[i] == users[i].id
  {
    seq(|users|, i requires 0 <= i < |users| => users[i].id)
  }

  /** The ids of a list of accounts. */
  function IdsOf(accounts: seq<Account>): set<nat>
  {
    set a | a in accounts :: a.id
  }

  lemma HasAccountIdIffIn(accounts: seq<Account>, id: nat)
    ensures HasAccountId(accounts, id) <==> id in IdsOf(accounts)
  {
    if id in IdsOf(accounts) {
      var a :| a in accounts && a.id == id;
      var i :| 0 <= i < |accounts| && accounts[i] == a;
    }
  }

  /** Removing the row at `k` keeps the ids distinct and loses only its id. */
  lemma RemoveAtKeepsIds(users: seq<Account>, k: nat)
    requires AccountIdsUnique(users) && k < |users|
    ensures var r := users[..k] + users[k + 1..];
      && AccountIdsUnique(r)
      && forall x :: HasAccountId(r, x) <==> HasAccountId(users, x) && x != users[k].id
  {
    var r := users[..k] + users[k + 1..];
    assert forall i :: 0 <= i < |r| ==> r[i] == users[if i < k then i else i + 1];
    forall x | HasAccountId(users, x) && x != users[k].id
      ensures HasAccountId(r, x)
    {
      var i :| 0 <= i < |users| && users[i].id == x;
      assert r[if i < k then i else i - 1].id == x;
    }
  }

  /** Dropping a row keeps the row ids distinct and loses only that id. */
  lemma WithoutAccountKeepsIds(users: seq<Account>, id: nat)
    requires AccountIdsUnique(users)
    ensures AccountIdsUnique(WithoutAccount(users, id))
    ensures forall x :: HasAccountId(WithoutAccount(users, id), x) <==> HasAccountId(users, x) && x != id
  {
    if HasAccountId(users, id) {
      var k :| 0 <= k < |users| && users[k].id == id;
      FilterRemovesOnlyFailure(users, k, (a: Account) => a.id != id);
      RemoveAtKeepsIds(users, k);
    } else {
      FilterAllPass(users, (a: Account) => a.id != id);
    }
  }

  /** `now` holds exactly the accounts of `before` whose ids were not deleted. */
  ghost predicate Kept(before: seq<Account>, now: seq<Account>, deleted: set<nat>)
  {
    forall a :: a in now <==> a in before && a.id !in deleted
  }

  /** An id not yet attempted is in the table iff it was there before the batch. */
  lemma StillPresent(before: seq<Account>, now: seq<Account>, deleted: set<nat>, id: nat)
    requires Kept(before, now, deleted) && id !in deleted
    ensures HasAccountId(now, id) <==> id in IdsOf(before)
  {
    HasAccountIdIffIn(now, id);
  }

  lemma KeptAfterStep(before: seq<Account>, prev: seq<Account>, now: seq<Account>, deleted: set<nat>, id: nat)
    requires Kept(before, prev, deleted)
    requires forall a :: a in now <==> a in prev && a.id != id
    ensures Kept(before, now, deleted + {id})
  {
  }

  /** One deletion of the batch: the error text of a failed request, or
      nothing when the user was deleted. */
  method DeleteOne(table: AccountTable, id: nat) returns (failure: Option<string>)
    requires table.Valid() && table.kind == Users
    modifies table
    ensures table.Valid() && table.kind == Users
    ensures failure.None? <==> HasAccountId(old(table.accounts), id)
    ensures failure.Some? ==> failure.value == USER_NOT_FOUND
    ensures forall x :: x in table.accounts <==> x in old(table.accounts) && x.id != id
  {
    var r := table.DeleteUser(id);
    if r.Ok? {
      failure := None;
    } else {
      failure := Some(r.error);
    }
  }

  /** The batch's deletions, one selected id after another. A deletion fails
      exactly when its user is not in the table. */
  method DeleteEach(table: AccountTable, ids: set<nat>) returns (failures: seq<string>)
    requires table.Valid() && table.kind == Users
    modifies table
    ensures table.Valid()
    ensures forall a :: a in table.accounts <==> a in old(table.accounts) && a.id !in ids
    ensures |failures| == |ids - IdsOf(old(table.accounts))|
    ensures forall i :: 0 <= i < |failures| ==> failures[i] == USER_NOT_FOUND
  {
    failures := [];
    ghost var before := table.accounts;
    ghost var gone := IdsOf(before);
    ghost var done: set<nat> := {};
    var pending := ids;
    while pending != {}
      invariant pending <= ids && done == ids - pending
      invariant table.Valid() && table.kind == Users
      invariant Kept(before, table.accounts, done)
      invariant |failures| == |done - gone|
      invariant forall i :: 0 <= i < |failures| ==> failures[i] == USER_NOT_FOUND
      decreases |pending|
    {
      var id :| id in pending;
      StillPresent(before, table.accounts, done, id);
      ghost var prev := table.accounts;
      var failure := DeleteOne(table, id);
      KeptAfterStep(before, prev, table.accounts, done, id);
      if failure.None? {
        FailedSetUnchanged(done, gone, id);
      } else {
        FailedSetGrows(done, gone, id);
        failures := failures + [failure.value];
      }
      pending := pending - {id};
      done := done + {id};
    }
    NothingPending(ids, pending, done);
  }

  class UserPage {
    var users: seq<Account>
    var loading: bool
    var error: Option<string>
    var selectedUserIds: set<nat>
    var visiblePasswordIds: set<nat>

    /** Rows have distinct ids, and both sets only hold ids of listed rows. */
    ghost predicate Valid()
      reads this
    {
      && AccountIdsUnique(users)
      && (forall id :: id in selectedUserIds ==> HasAccountId(users, id))
      && (forall id :: id in visiblePasswordIds ==> HasAccountId(users, id))
    }

    constructor ()
      ensures Valid() && users == [] && loading && error == None
      ensures selectedUserIds == {} && visiblePasswordIds == {}
    {
      users := [];
      loading := true;
      error := None;
      selectedUserIds := {};
      visiblePasswordIds := {};
    }

    /** The select-all box's checked state. */
    predicate AllSelected()
      reads this
    {
      IsAllSelected(|users|, selectedUserIds)
    }

    /** The password column: the password when its eye is open, a mask otherwise. */
    function PasswordCell(u: Account): (s: string)
      reads this
      ensures u.id in visiblePasswordIds ==> s == u.password
      ensures u.id !in visiblePasswordIds ==> s == PASSWORD_MASK
    {
      if u.id in visiblePasswordIds then u.password else PASSWORD_MASK
    }

    /** `fetchUsers` given the reply of `/read_users`. A failed reply leaves the
        rows as they were. */
    method FetchUsers(reply: Response<seq<Account>>)
      requires AccountIdsUnique(users) && (reply.Ok? ==> AccountIdsUnique(reply.value))
      modifies this
      ensures AccountIdsUnique(users) && !loading
      ensures users == (if reply.Ok? then reply.value else old(users))
      ensures error == FetchError(reply)
      ensures selectedUserIds == old(selectedUserIds) && visiblePasswordIds == old(visiblePasswordIds)
      ensures old(selectedUserIds) == {} && old(visiblePasswordIds) == {} ==> Valid()
    {
      loading := true;
      error := None;
      if reply.Ok? {
        users := reply.value;
      } else {
        error := FetchError(reply);
      }
      loading := false;
    }

    method CheckboxChange(id: nat)
      requires Valid() && HasAccountId(users, id)
      modifies this
      ensures Valid() && selectedUserIds == Toggle(old(selectedUserIds), id)
      ensures users == old(users) && visiblePasswordIds == old(visiblePasswordIds) && error == old(error)
    {
      selectedUserIds := Toggle(selectedUserIds, id);
    }

    method SelectAllChange(checked: bool)
      requires Valid()
      modifies this
      ensures Valid() && selectedUserIds == SelectAll(AccountIds(users), checked)
      ensures checked && users != [] ==> AllSelected()
      ensures users == old(users) && visiblePasswordIds == old(visiblePasswordIds) && error == old(error)
    {
      selectedUserIds := SelectAll(AccountIds(users), checked);
      forall id | id in selectedUserIds
        ensures HasAccountId(users, id)
      {
        var i :| 0 <= i < |users| && AccountIds(users)[i] == id;
      }
      assert NoDuplicates(AccountIds(users));
      IsAllSelectedIff(AccountIds(users), selectedUserIds);
    }

    method TogglePasswordVisibility(id: nat)
      requires Valid() && HasAccountId(users, id)
      modifies this
      ensures Valid() && visiblePasswordIds == Toggle(old(visiblePasswordIds), id)
      ensures users == old(users) && selectedUserIds == old(selectedUserIds) && error == old(error)
    {
      visiblePasswordIds := Toggle(visiblePasswordIds, id);
    }

    /** `handleDeleteUser`: `confirmed` is the answer to the confirmation
        dialog, `alert` the text shown afterwards. */
    method DeleteUser(table: AccountTable, id: nat, confirmed: bool) returns (alert: Option<string>)
      requires Valid() && table.Valid() && table.kind == Users
      modifies this, table
      ensures Valid() && table.Valid() && error == old(error)
      ensures !confirmed ==> alert == None && unchanged(this) && unchanged(table)
      ensures confirmed && HasAccountId(old(table.accounts), id) ==> (
        && alert == Some(USER_DELETED)
        && table.accounts == WithoutAccount(old(table.accounts), id)
        && users == WithoutAccount(old(users), id)
        && selectedUserIds == old(selectedUserIds) - {id}
        && visiblePasswordIds == old(visiblePasswordIds) - {id})
      ensures confirmed && !HasAccountId(old(table.accounts), id) ==> (
        && alert == Some(USER_NOT_FOUND)
        && table.accounts == old(table.accounts)
        && users == old(users)
        && selectedUserIds == old(selectedUserIds) && visiblePasswordIds == old(visiblePasswordIds))
    {
      if !confirmed {
        return None;
      }
      var r := table.DeleteUser(id);
      if r.Ok? {
        WithoutAccountKeepsIds(users, id);
        users := WithoutAccount(users, id);
        selectedUserIds := selectedUserIds - {id};
        visiblePasswordIds := visiblePasswordIds - {id};
        alert := Some(USER_DELETED);
      } else {
        alert := Some(r.error);
      }
    }

    /** `handleDeleteSelectedUsers`, one deletion after another, then the
        reload. `failures` holds the error text of every deletion that
        failed. */
    method DeleteSelected(table: AccountTable, confirmed: bool) returns (alert: Option<string>, failures: seq<string>)
      requires Valid() && table.Valid() && table.kind == Users
      modifies this, table
      ensures Valid() && table.Valid()
      ensures old(selectedUserIds) == {} ==> alert == Some(NONE_SELECTED) && unchanged(this) && unchanged(table)
      ensures old(selectedUserIds) != {} && !confirmed ==> alert == None && unchanged(this) && unchanged(table)
      ensures old(selectedUserIds) != {} && confirmed ==> (
        // every selected id was attempted, and nothing else was removed
        && (forall a :: a in table.accounts <==> a in old(table.accounts) && a.id !in old(selectedUserIds))
        // a deletion fails exactly when its user was already gone
        && |failures| == |old(selectedUserIds) - IdsOf(old(table.accounts))|
        && (forall i :: 0 <= i < |failures| ==> failures[i] == USER_NOT_FOUND)
        && alert == (if failures == [] then Some(BATCH_DELETED) else None)
        // the reload: an emptied table answers 404 and the old rows stay
        && users == (if table.accounts != [] then table.accounts else old(users))
        // as written, the reload overwrites the failure report
        && error == BatchErrorAsWritten(NOUN, failures, FetchError(ReadUsers(table.accounts)))
        && error == FetchError(ReadUsers(table.accounts))
        && selectedUserIds == {} && visiblePasswordIds == {} && !loading)
    {
      failures := [];
      if selectedUserIds == {} {
        return Some(NONE_SELECTED), failures;
      }
      if !confirmed {
        return None, failures;
      }
      loading := true;
      error := None;
      failures := DeleteEach(table, selectedUserIds);
      alert := FinishBatch(table.accounts, failures);
    }

    /** What the batch does once every deletion has answered, in the source's
        order: the failure report or the success alert, then the reload from
        the table `accounts`, which clears the error first, then the cleared
        sets. The failure report is therefore overwritten by the reload. */
    method FinishBatch(accounts: seq<Account>, failures: seq<string>) returns (alert: Option<string>)
      requires AccountIdsUnique(users) && AccountIdsUnique(accounts)
      modifies this
      ensures Valid() && !loading && selectedUserIds == {} && visiblePasswordIds == {}
      ensures alert == (if failures == [] then Some(BATCH_DELETED) else None)
      ensures users == (if accounts != [] then accounts else old(users))
      ensures error == BatchErrorAsWritten(NOUN, failures, FetchError(ReadUsers(accounts)))
      ensures error == FetchError(ReadUsers(accounts))
    {
      if failures != [] {
        error := Some(FailureText(NOUN, failures));
        alert := None;
      } else {
        alert := Some(BATCH_DELETED);
      }
      FetchUsers(ReadUsers(accounts));
      BatchFailureIsHidden(NOUN, failures, FetchError(ReadUsers(accounts)));
      selectedUserIds := {};
      visiblePasswordIds := {};
      loading := false;
    }
  }
}
