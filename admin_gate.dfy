/** The admin access gate (src/app/admin/layout.tsx). */
module AdminGate {
  import opened Wrappers
  import opened Types
  import opened DocStore
  import opened UserProfileHook

  datatype AdminScreen = VerifyingSpinner | AdminContent

  /** What the layout renders, and whether its effect replaces the route with '/'. */
  datatype Gate = Gate(redirectHome: bool, screen: AdminScreen)

  function Gatekeep(isLoading: bool, profile: Option<AppUserProfile>): (g: Gate)
    ensures g.screen == AdminContent <==> !isLoading && profile.Some? && profile.value.isAdmin
    ensures g.redirectHome <==> !isLoading && (profile.None? || !profile.value.isAdmin)
    ensures isLoading ==> g.screen == VerifyingSpinner && !g.redirectHome
    ensures !(g.redirectHome && g.screen == AdminContent)
  {
    // `userProfile?.isAdmin` is undefined, hence falsy, when there is no profile.
    var isAdmin := profile.Some? && profile.value.isAdmin;
    Gate(!isLoading && !isAdmin, if isLoading || !isAdmin then VerifyingSpinner else AdminContent)
  }

  /**
   * Admin content is reached only by a signed-in identity whose
   * `roles_admin/{uid}` document exists, once every subscription has loaded.
   */
  lemma AdminContentRequiresRoleDocument(docs: map<Path, Doc>, authUser: Option<AuthUser>,
                                         isAuthLoading: bool, isDocLoading: bool, isAdminRoleLoading: bool)
    requires
      var s := UseUserProfile(authUser, isAuthLoading,
                              if authUser.Some? then LoadedDoc(docs, UserPath(authUser.value.uid)) else None, isDocLoading,
                              if authUser.Some? then LoadedDoc(docs, AdminRolePath(authUser.value.uid)) else None, isAdminRoleLoading);
      Gatekeep(s.isLoading, s.userProfile).screen == AdminContent
    ensures authUser.Some? && AdminRolePath(authUser.value.uid) in docs
    ensures !isAuthLoading && !isDocLoading && !isAdminRoleLoading
  {
  }
}
