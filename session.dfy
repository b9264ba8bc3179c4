/**
 * The admin session flag: the `admin_session` key of local storage, which counts
 * as an active session only when it holds exactly the string 'true'.
 */
module AdminSession {
  import opened Wrappers
  import Storage

  const AdminSessionKey := "admin_session"

  predicate IsAdmin(items: map<string, string>) {
    Storage.Get(items, AdminSessionKey) == Some("true")
  }

  /** The guard of the admin pages: redirect to the login page unless the flag is set. */
  function GuardRedirect(items: map<string, string>): (r: Option<string>)
    ensures r.Some? <==> !(AdminSessionKey in items && items[AdminSessionKey] == "true")
    ensures r.Some? ==> r.value == "/admin/login"
  {
    if IsAdmin(items) then None else Some("/admin/login")
  }
}
