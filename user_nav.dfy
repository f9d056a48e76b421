/** The header's account menu (src/components/auth/user-nav.tsx). */
module UserNav {
  import opened Wrappers
  import opened Text
  import opened Types

  /** `s.charAt(0).toUpperCase()`: "" for the empty string. */
  function FirstUpper(s: string): (r: string)
    ensures s == "" <==> r == ""
    ensures s != "" ==> r == [UpperChar(s[0])]
  {
    if s == "" then "" else [UpperChar(s[0])]
  }

  /** The avatar fallback: from displayName unless it is null, else from email unless null, else "U". */
  function AvatarInitial(user: UserProfile): (r: string)
    ensures user.displayName.Some? ==> r == FirstUpper(user.displayName.value)
    ensures user.displayName.None? && user.email.Some? ==> r == FirstUpper(user.email.value)
    ensures user.displayName.None? && user.email.None? ==> r == "U"
    ensures |r| <= 1
  {
    match user.displayName
    case Some(name) => FirstUpper(name)
    case None =>
      match user.email
      case Some(email) => FirstUpper(email)
      case None => "U"
  }

  /** An empty display name gives an empty initial; `??` does not fall back on "". */
  lemma EmptyDisplayNameHasNoInitial(user: UserProfile)
    requires user.displayName == Some("")
    ensures AvatarInitial(user) == ""
  {
  }

  datatype MenuItem = ProfileItem | MyOrdersItem | AdminPanelItem | LogOutItem

  datatype NavView = LoginButton | AccountMenu(initial: string, items: seq<MenuItem>)

  /** `UserNav`: a Login link without a user; otherwise the menu, with Admin Panel only when `isAdmin` is true. */
  function UserNavView(user: Option<UserProfile>): (v: NavView)
    ensures v == LoginButton <==> user.None?
    ensures v.AccountMenu? ==> v.initial == AvatarInitial(user.value)
    ensures v.AccountMenu? ==> (AdminPanelItem in v.items <==> user.value.isAdmin == Some(true))
    ensures v.AccountMenu? ==>
      && |v.items| >= 3
      && v.items[0] == ProfileItem && v.items[1] == MyOrdersItem && v.items[|v.items| - 1] == LogOutItem
  {
    match user
    case None => LoginButton
    case Some(u) =>
      var adminItems := if u.isAdmin == Some(true) then [AdminPanelItem] else [];
      AccountMenu(AvatarInitial(u), [ProfileItem, MyOrdersItem] + adminItems + [LogOutItem])
  }

  /** The placeholder `useAuth` hook: it never reports a user. */
  function MockUser(): Option<UserProfile>
  {
    None
  }

  /** As shipped, the menu always shows only the Login link. */
  lemma MockedNavShowsLogin()
    ensures UserNavView(MockUser()) == LoginButton
  {
  }
}
