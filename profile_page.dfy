/**
 * The mobile profile screen's password change: the client-side guards, the
 * `/change_password` request and what the screen does with the reply.
 */
module ProfilePage {
  import opened Outcomes
  import opened Accounts

  const DEFAULT_USER_NAME: string := "Guest"
  const BOTH_FIELDS_REQUIRED: string := "Please fill in both fields."
  const PASSWORDS_DIFFER: string := "Passwords do not match."
  const PASSWORD_TOO_SHORT: string := "New password must be at least 4 characters."
  const CHANGE_FAILED: string := "Failed to change password"
  const MIN_PASSWORD_LENGTH: nat := 4

  /** The guards of `handleChangePassword`, first failure wins. */
  function PasswordChangeError(newPassword: string, confirmPassword: string): (r: Option<string>)
    ensures r == Some(BOTH_FIELDS_REQUIRED) <==> newPassword == "" || confirmPassword == ""
    ensures r == Some(PASSWORDS_DIFFER) <==>
      newPassword != "" && confirmPassword != "" && newPassword != confirmPassword
    ensures r == Some(PASSWORD_TOO_SHORT) <==>
      newPassword != "" && newPassword == confirmPassword && |newPassword| < MIN_PASSWORD_LENGTH
    ensures r.None? <==> newPassword == confirmPassword && |newPassword| >= MIN_PASSWORD_LENGTH
  {
    if newPassword == "" || confirmPassword == "" then Some(BOTH_FIELDS_REQUIRED)
    else if newPassword != confirmPassword then Some(PASSWORDS_DIFFER)
    else if |newPassword| < MIN_PASSWORD_LENGTH then Some(PASSWORD_TOO_SHORT)
    else None
  }

  /** The request body: exactly the user name and the new password. */
  datatype ChangePasswordRequest = ChangePasswordRequest(userName: string, newPassword: string)

  /** A request from a screen with a user name, carrying a password the
      guards let through, always passes the route's own required-field check,
      so the screen never sees the route's 400. */
  lemma GuardsImplyRouteFields(req: ChangePasswordRequest, confirmPassword: string)
    requires req.userName != ""
    requires PasswordChangeError(req.newPassword, confirmPassword).None?
    ensures !ChangeFieldsMissing(req.userName, req.newPassword)
  {
  }

  class ProfilePage {
    const userName: string
    var newPassword: string
    var confirmPassword: string
    var isChanging: bool
    var error: string
    var loggedOut: bool

    ghost predicate Valid()
      reads this
    {
      userName != "" && !isChanging
    }

    /** `route.params?.userName`, or `'Guest'`; an empty `routeUserName` stands
        for a missing parameter. */
    constructor (routeUserName: string)
      ensures Valid() && userName == OrElse(routeUserName, DEFAULT_USER_NAME)
      ensures newPassword == "" && confirmPassword == "" && error == "" && !loggedOut
    {
      userName := OrElse(routeUserName, DEFAULT_USER_NAME);
      newPassword := "";
      confirmPassword := "";
      isChanging := false;
      error := "";
      loggedOut := false;
    }

    method EnterPasswords(newPassword: string, confirmPassword: string)
      requires Valid()
      modifies this
      ensures Valid()
      ensures this.newPassword == newPassword && this.confirmPassword == confirmPassword
      ensures error == old(error) && loggedOut == old(loggedOut) && isChanging == old(isChanging)
    {
      this.newPassword := newPassword;
      this.confirmPassword := confirmPassword;
    }

    /** The payload `handleChangePassword` posts. */
    function Request(): (req: ChangePasswordRequest)
      reads this
      ensures req.userName == userName && req.newPassword == newPassword
    {
      ChangePasswordRequest(userName, newPassword)
    }

    /** `handleChangePassword` against the user table. A rejected change shows the
        route's error text; a successful one logs the user out. */
    method HandleChangePassword(users: AccountTable)
      requires Valid() && users.Valid() && users.kind == Users
      modifies this, users
      ensures Valid() && users.Valid()
      ensures newPassword == old(newPassword) && confirmPassword == old(confirmPassword)
      ensures var guard := PasswordChangeError(old(newPassword), old(confirmPassword));
        && (guard.Some? ==> error == guard.value && unchanged(users) && loggedOut == old(loggedOut))
        && (guard.None? && FindByName(old(users.accounts), userName).Some? ==>
              && users.accounts == WithPassword(old(users.accounts), userName, newPassword)
              && loggedOut && error == "")
        && (guard.None? && FindByName(old(users.accounts), userName).None? ==>
              && users.accounts == old(users.accounts)
              && loggedOut == old(loggedOut) && error == USER_NOT_FOUND)
      ensures error != CHANGE_REQUIRED
    {
      var guard := PasswordChangeError(newPassword, confirmPassword);
      if guard.Some? {
        error := guard.value;
        return;
      }
      isChanging := true;
      error := "";
      var req := Request();
      GuardsImplyRouteFields(req, confirmPassword);
      var r := users.ChangePassword(req.userName, req.newPassword);
      if r.Ok? {
        loggedOut := true;
      } else {
        error := OrElse(r.error, CHANGE_FAILED);
      }
      isChanging := false;
    }
  }
}
