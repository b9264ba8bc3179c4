/**
 * The page frame (src/components/Layout.tsx): the navigation entries, which of
 * them is highlighted for the current path, and the admin logout button.
 */
module Layout {
  import opened Wrappers
  import Storage
  import AdminSession
  import Seqs

  datatype NavItem = NavItem(caption: string, path: string)

  const HomeItem := NavItem("الرئيسية", "/")
  const SearchItem := NavItem("بحث", "/filter")
  const DashboardItem := NavItem("لوحة التحكم", "/admin/dashboard")
  const LoginItem := NavItem("دخول المشرف", "/admin/login")

  /** `isAdmin`: the stored session flag is exactly 'true'. */
  predicate IsAdmin(items: map<string, string>) {
    AdminSession.IsAdmin(items)
  }

  /** `navItems`: home, search, then the dashboard for an admin or the login page otherwise. */
  function NavItems(isAdmin: bool): (r: seq<NavItem>)
    ensures |r| == 3 && r[0].path == "/" && r[1].path == "/filter"
    ensures r[2].path == "/admin/dashboard" <==> isAdmin
    ensures r[2].path == "/admin/login" <==> !isAdmin
  {
    [HomeItem, SearchItem, if isAdmin then DashboardItem else LoginItem]
  }

  function Paths(items: seq<NavItem>): (r: seq<string>)
    ensures |r| == |items| && forall i :: 0 <= i < |items| ==> r[i] == items[i].path
  {
    seq(|items|, i requires 0 <= i < |items| => items[i].path)
  }

  /** `location.pathname === item.path`. */
  predicate IsActive(item: NavItem, pathname: string) {
    pathname == item.path
  }

  /**
   * The entries have distinct paths (the React keys), so at most one is highlighted,
   * and one is exactly when the path is one of theirs.
   */
  lemma AtMostOneActive(isAdmin: bool, pathname: string)
    ensures Seqs.Distinct(Paths(NavItems(isAdmin)))
    ensures forall i, j :: 0 <= i < j < 3 && IsActive(NavItems(isAdmin)[i], pathname) ==> !IsActive(NavItems(isAdmin)[j], pathname)
    ensures (exists i :: 0 <= i < 3 && IsActive(NavItems(isAdmin)[i], pathname)) <==> pathname in Paths(NavItems(isAdmin))
  {
    var items := NavItems(isAdmin);
    var ps := Paths(items);
    assert ps == ["/", "/filter", items[2].path];
    if pathname in ps {
      var i :| 0 <= i < 3 && ps[i] == pathname;
      assert IsActive(items[i], pathname);
    }
  }

  /** The third entry links to the dashboard exactly when the admin guard would admit the user. */
  lemma NavFollowsGuard(items: map<string, string>)
    ensures NavItems(IsAdmin(items))[2].path == "/admin/dashboard" <==> AdminSession.GuardRedirect(items).None?
    ensures NavItems(IsAdmin(items))[2].path == "/admin/login" <==> AdminSession.GuardRedirect(items) == Some("/admin/login")
  {
  }

  /** The logout button is rendered only for an admin. */
  predicate LogoutOffered(items: map<string, string>) {
    IsAdmin(items)
  }

  /**
   * The logout button's handler: remove 'admin_session' and go to '/'. Nothing
   * else is removed, so an API token stays stored.
   */
  method Logout(storage: Storage.LocalStorage) returns (location: string)
    requires LogoutOffered(storage.items)
    modifies storage
    ensures storage.items == old(storage.items) - {AdminSession.AdminSessionKey}
    ensures location == "/"
  {
    storage.RemoveItem(AdminSession.AdminSessionKey);
    location := "/";
  }

  /** After logout the guard redirects again and the navigation shows the login entry; other keys survive. */
  lemma LogoutEndsSession(items: map<string, string>)
    ensures AdminSession.GuardRedirect(items - {AdminSession.AdminSessionKey}) == Some("/admin/login")
    ensures NavItems(IsAdmin(items - {AdminSession.AdminSessionKey}))[2] == LoginItem
    ensures forall k :: k in items && k != AdminSession.AdminSessionKey ==> k in items - {AdminSession.AdminSessionKey}
  {
  }
}
