/**
 * The account tables and their routes: registration and login for users and
 * for admins, the user password change and the user hard delete.
 *
 * Both tables map a unique name to a clear-text password; a user also has a
 * joining date. Names and passwords are required, so never empty.
 */
module Accounts {
  import opened Outcomes
  import opened Calendar
  import opened Sequences

  datatype AccountKind = Users | Admins

  datatype Account = Account(id: nat, name: string, password: string, joiningDate: Option<Instant>)

  function RequiredError(kind: AccountKind): string
  {
    if kind == Users then "User Name and password are required." else "Admin Name and password are required."
  }

  function ExistsError(kind: AccountKind): string
  {
    if kind == Users then "User already exists." else "Admin User already exists."
  }

  function RegisteredMessage(kind: AccountKind): string
  {
    if kind == Users then "User registered successfully." else "Admin User registered successfully."
  }

  function UnknownError(kind: AccountKind): string
  {
    if kind == Users then "User does not exist." else "Admin User does not exist."
  }

  function LoggedInMessage(kind: AccountKind): string
  {
    if kind == Users then "User logged in successfully." else "Admin User logged in successfully."
  }

  const INVALID_PASSWORD: string := "Invalid password."
  const CHANGE_REQUIRED: string := "Username and new password are required."
  const USER_NOT_FOUND: string := "User not found."
  const PASSWORD_CHANGED: string := "Password changed successfully."
  const USER_DELETED: string := "User deleted successfully!"

  /** The `/change_password` route's required-field check: a missing name or
      a missing new password. */
  predicate ChangeFieldsMissing(name: string, newPassword: string)
  {
    name == "" || newPassword == ""
  }

  predicate NamesUnique(accounts: seq<Account>)
  {
    forall i, j :: 0 <= i < j < |accounts| ==> accounts[i].name != accounts[j].name
  }

  predicate AccountIdsUnique(accounts: seq<Account>)
  {
    forall i, j :: 0 <= i < j < |accounts| ==> accounts[i].id != accounts[j].id
  }

  predicate HasAccountId(accounts: seq<Account>, id: nat)
  {
    exists i :: 0 <= i < |accounts| && accounts[i].id == id
  }

  /** `findOne({ name })`: the first account with that name. */
  function FindByName(accounts: seq<Account>, name: string): (r: Option<Account>)
    ensures r.None? <==> forall i :: 0 <= i < |accounts| ==> accounts[i].name != name
    ensures r.Some? ==> r.value in accounts && r.value.name == name
  {
    if accounts == [] then None
    else if accounts[0].name == name then Some(accounts[0])
    else FindByName(accounts[1..], name)
  }

  /** With unique names, the account found is the one at the name's position. */
  lemma FindByNameAt(accounts: seq<Account>, k: nat)
    requires NamesUnique(accounts) && k < |accounts|
    ensures FindByName(accounts, accounts[k].name) == Some(accounts[k])
  {
    var r := FindByName(accounts, accounts[k].name);
    var j :| 0 <= j < |accounts| && accounts[j] == r.value;
    assert j == k;
  }

  /** The login routes: read-only, and every refusal is a 400 with its own text. */
  function Login(accounts: seq<Account>, kind: AccountKind, name: string, password: string): (r: Response<()>)
    ensures !r.Ok? ==> r.BadRequest?
    ensures name == "" || password == "" ==> r == BadRequest(RequiredError(kind))
    ensures name != "" && password != "" && FindByName(accounts, name).None? ==> r == BadRequest(UnknownError(kind))
    ensures r.Ok? ==> r.message == LoggedInMessage(kind)
    ensures r.Ok? <==> (name != "" && password != "" && FindByName(accounts, name).Some?
                       && FindByName(accounts, name).value.password == password)
    ensures r == BadRequest(INVALID_PASSWORD) <==>
              (name != "" && password != "" && FindByName(accounts, name).Some?
               && FindByName(accounts, name).value.password != password)
  {
    if name == "" || password == "" then BadRequest(RequiredError(kind))
    else
      match FindByName(accounts, name)
      case None => BadRequest(UnknownError(kind))
      case Some(a) =>
        if a.password != password then BadRequest(INVALID_PASSWORD)
        else Ok((), LoggedInMessage(kind))
  }

  /** With unique names, login succeeds exactly for a stored name-password pair. */
  lemma LoginIffStoredPair(accounts: seq<Account>, kind: AccountKind, name: string, password: string)
    requires NamesUnique(accounts) && name != "" && password != ""
    ensures Login(accounts, kind, name, password).Ok? <==>
            exists i :: 0 <= i < |accounts| && accounts[i].name == name && accounts[i].password == password
  {
    if i :| 0 <= i < |accounts| && accounts[i].name == name && accounts[i].password == password {
      FindByNameAt(accounts, i);
    }
  }

  /** The table after `user.user_password = new_password; user.save()`. */
  function WithPassword(accounts: seq<Account>, name: string, password: string): (r: seq<Account>)
    ensures |r| == |accounts|
    ensures forall i :: 0 <= i < |r| ==>
      r[i] == if accounts[i].name == name then accounts[i].(password := password) else accounts[i]
  {
    seq(|accounts|, i requires 0 <= i < |accounts| =>
      if accounts[i].name == name then accounts[i].(password := password) else accounts[i])
  }

  /** After a password change, logging in with the new password succeeds. */
  lemma LoginAfterChange(accounts: seq<Account>, kind: AccountKind, name: string, password: string)
    requires NamesUnique(accounts) && FindByName(accounts, name).Some?
    requires name != "" && password != ""
    ensures Login(WithPassword(accounts, name, password), kind, name, password) == Ok((), LoggedInMessage(kind))
  {
    var changed := WithPassword(accounts, name, password);
    var a := FindByName(accounts, name).value;
    var k :| 0 <= k < |accounts| && accounts[k] == a;
    assert NamesUnique(changed);
    LoginIffStoredPair(changed, kind, name, password);
    assert changed[k].name == name && changed[k].password == password;
  }

  /** The table without the account whose id is `id`. */
  function WithoutAccount(accounts: seq<Account>, id: nat): (r: seq<Account>)
    ensures forall a :: a in r <==> a in accounts && a.id != id
  {
    Filter(accounts, (a: Account) => a.id != id)
  }

  /** Removing one position keeps every invariant of the table. */
  lemma RemoveAtKeepsInvariants(accounts: seq<Account>, k: nat, bound: nat)
    requires k < |accounts|
    requires NamesUnique(accounts) && AccountIdsUnique(accounts)
    requires forall i :: 0 <= i < |accounts| ==>
      accounts[i].id < bound && accounts[i].name != "" && accounts[i].password != ""
    ensures var r := accounts[..k] + accounts[k + 1..];
      && NamesUnique(r) && AccountIdsUnique(r)
      && (forall i :: 0 <= i < |r| ==> r[i].id < bound && r[i].name != "" && r[i].password != "")
      && !HasAccountId(r, accounts[k].id)
  {
    var r := accounts[..k] + accounts[k + 1..];
    assert forall i :: 0 <= i < |r| ==> r[i] == accounts[if i < k then i else i + 1];
  }

  class AccountTable {
    const kind: AccountKind
    var accounts: seq<Account>
    var nextId: nat

    ghost predicate Valid()
      reads this
    {
      && NamesUnique(accounts)
      && AccountIdsUnique(accounts)
      && forall i :: 0 <= i < |accounts| ==>
           accounts[i].id < nextId && accounts[i].name != "" && accounts[i].password != ""
    }

    constructor (kind: AccountKind)
      ensures Valid() && this.kind == kind && accounts == [] && nextId == 0
    {
      this.kind := kind;
      accounts := [];
      nextId := 0;
    }

    /** `/user_register` and `/admin_register`. */
    method Register(name: string, password: string, now: Instant) returns (r: Response<()>)
      requires Valid()
      modifies this
      ensures Valid()
      ensures name == "" || password == "" ==>
        r == BadRequest(RequiredError(kind)) && accounts == old(accounts) && nextId == old(nextId)
      ensures name != "" && password != "" && FindByName(old(accounts), name).Some? ==>
        r == BadRequest(ExistsError(kind)) && accounts == old(accounts) && nextId == old(nextId)
      ensures name != "" && password != "" && FindByName(old(accounts), name).None? ==>
        && r == Ok((), RegisteredMessage(kind))
        && accounts == old(accounts) + [Account(old(nextId), name, password, if kind == Users then Some(now) else None)]
        && nextId == old(nextId) + 1
    {
      if name == "" || password == "" {
        return BadRequest(RequiredError(kind));
      }
      var k := IndexWhere(accounts, (a: Account) => a.name == name);
      if k >= 0 {
        return BadRequest(ExistsError(kind));
      }
      var joined := if kind == Users then Some(now) else None;
      accounts := accounts + [Account(nextId, name, password, joined)];
      nextId := nextId + 1;
      r := Ok((), RegisteredMessage(kind));
    }

    /** `/change_password`: no check of the old password. */
    method ChangePassword(name: string, newPassword: string) returns (r: Response<()>)
      requires Valid() && kind == Users
      modifies this
      ensures Valid() && nextId == old(nextId)
      ensures ChangeFieldsMissing(name, newPassword) ==> r == BadRequest(CHANGE_REQUIRED) && accounts == old(accounts)
      ensures !ChangeFieldsMissing(name, newPassword) && FindByName(old(accounts), name).None? ==>
        r == NotFound(USER_NOT_FOUND) && accounts == old(accounts)
      ensures !ChangeFieldsMissing(name, newPassword) && FindByName(old(accounts), name).Some? ==>
        r == Ok((), PASSWORD_CHANGED) && accounts == WithPassword(old(accounts), name, newPassword)
    {
      if ChangeFieldsMissing(name, newPassword) {
        return BadRequest(CHANGE_REQUIRED);
      }
      var k := IndexWhere(accounts, (a: Account) => a.name == name);
      if k < 0 {
        return NotFound(USER_NOT_FOUND);
      }
      ghost var before := accounts;
      accounts := accounts[k := accounts[k].(password := newPassword)];
      assert accounts == WithPassword(before, name, newPassword);
      r := Ok((), PASSWORD_CHANGED);
    }

    /** `/delete_user/:_id`: a hard delete returning the removed account. */
    method DeleteUser(id: nat) returns (r: Response<Account>)
      requires Valid() && kind == Users
      modifies this
      ensures Valid() && nextId == old(nextId)
      ensures r.Ok? <==> HasAccountId(old(accounts), id)
      ensures !r.Ok? ==> r == NotFound(USER_NOT_FOUND) && accounts == old(accounts)
      ensures r.Ok? ==> (
        && r.message == USER_DELETED && r.value.id == id && r.value in old(accounts)
        && accounts == WithoutAccount(old(accounts), id)
        && |accounts| == |old(accounts)| - 1
        && !HasAccountId(accounts, id))
    {
      var k := IndexWhere(accounts, (a: Account) => a.id == id);
      if k < 0 {
        return NotFound(USER_NOT_FOUND);
      }
      var gone := accounts[k];
      FilterRemovesOnlyFailure(accounts, k, (a: Account) => a.id != id);
      RemoveAtKeepsInvariants(accounts, k, nextId);
      accounts := accounts[..k] + accounts[k + 1..];
      r := Ok(gone, USER_DELETED);
    }
  }
}
