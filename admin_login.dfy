/**
 * The admin login page (src/pages/AdminLogin.tsx): a fixed pair of credentials,
 * compared exactly. A match writes the session flag and navigates to the
 * dashboard; anything else shows an error and leaves storage alone.
 */
module AdminLogin {
  import opened Wrappers
  import Storage
  import AdminSession

  const AdminUsername := "admin"
  const AdminPassword := "password123"
  const DashboardPath := "/admin/dashboard"
  const InvalidCredentials := "اسم المستخدم أو كلمة المرور غير صحيحة"

  predicate ValidCredentials(username: string, password: string) {
    username == AdminUsername && password == AdminPassword
  }

  /** The storage after a login attempt. */
  function LoginEffect(items: map<string, string>, username: string, password: string): (r: map<string, string>)
    ensures AdminSession.IsAdmin(r) <==> ValidCredentials(username, password) || AdminSession.IsAdmin(items)
    ensures forall k :: k in items && k != AdminSession.AdminSessionKey ==> k in r && r[k] == items[k]
    ensures forall k :: k in r && k != AdminSession.AdminSessionKey ==> k in items
    ensures !ValidCredentials(username, password) ==> r == items
  {
    if ValidCredentials(username, password) then items[AdminSession.AdminSessionKey := "true"] else items
  }

  /** A failed attempt neither opens nor closes a session: the guard decides as before. */
  lemma FailedLoginKeepsSession(items: map<string, string>, username: string, password: string)
    requires !ValidCredentials(username, password)
    ensures AdminSession.GuardRedirect(LoginEffect(items, username, password)) == AdminSession.GuardRedirect(items)
  {
  }

  /** After a successful login the admin pages' guard lets the user through. */
  lemma LoginOpensAdminPages(items: map<string, string>)
    ensures AdminSession.GuardRedirect(LoginEffect(items, AdminUsername, AdminPassword)).None?
  {
  }

  /** The credentials are compared exactly: a username differing only in case is refused. */
  lemma CredentialsAreCaseSensitive(items: map<string, string>)
    ensures !ValidCredentials("Admin", AdminPassword)
    ensures LoginEffect(items, "Admin", AdminPassword) == items
  {
  }

  /** The page's state: the two inputs and the error line. */
  class LoginPage {
    var username: string
    var password: string
    var error: string

    constructor ()
      ensures username == "" && password == "" && error == ""
    {
      username, password, error := "", "", "";
    }

    method SetUsername(value: string)
      modifies this
      ensures username == value && password == old(password) && error == old(error)
    {
      username := value;
    }

    method SetPassword(value: string)
      modifies this
      ensures password == value && username == old(username) && error == old(error)
    {
      password := value;
    }

    /**
     * `handleLogin`: the navigation target on success (None when the page stays);
     * the error is set only on failure, and the inputs are kept either way.
     */
    method HandleLogin(storage: Storage.LocalStorage) returns (navigate: Option<string>)
      modifies this, storage
      ensures storage.items == LoginEffect(old(storage.items), username, password)
      ensures navigate.Some? <==> ValidCredentials(username, password)
      ensures navigate.Some? ==> navigate.value == DashboardPath
      ensures error == if ValidCredentials(username, password) then old(error) else InvalidCredentials
      ensures username == old(username) && password == old(password)
    {
      if username == AdminUsername && password == AdminPassword {
        storage.SetItem(AdminSession.AdminSessionKey, "true");
        navigate := Some(DashboardPath);
      } else {
        error := InvalidCredentials;
        navigate := None;
      }
    }
  }
}
