/**
 * `useUserProfile` (src/hooks/use-user-profile.ts): the signed-in identity,
 * its `users/{uid}` document and its `roles_admin/{uid}` document composed
 * into one profile.
 */
module UserProfileHook {
  import opened Wrappers
  import opened Types
  import opened DocStore

  /** The composed profile; unlike the stored profile, `isAdmin` is always a boolean. */
  datatype AppUserProfile = AppUserProfile(
    uid: string,
    email: Option<string>,
    displayName: Option<string>,
    photoURL: Option<string>,
    username: Option<string>,
    phoneNumber: Option<string>,
    isAdmin: bool)

  /** `doc?.field` for a string field: `None` when the document or the field is absent, null or not a string. */
  function StrField(d: Option<Doc>, k: string): (r: Option<string>)
    ensures r.Some? <==> d.Some? && k in d.value && d.value[k].Str?
  {
    if d.Some? && k in d.value && d.value[k].Str? then Some(d.value[k].s) else None
  }

  /** `a ?? b`. */
  function Coalesce(a: Option<string>, b: Option<string>): Option<string>
  {
    if a.Some? then a else b
  }

  /** The `useMemo` of lines 40-54. */
  function ComposeProfile(authUser: Option<AuthUser>, userDoc: Option<Doc>, adminRoleDoc: Option<Doc>)
    : (r: Option<AppUserProfile>)
    ensures r.None? <==> authUser.None?
    ensures r.Some? ==> r.value.uid == authUser.value.uid
    ensures r.Some? ==> (r.value.isAdmin <==> adminRoleDoc.Some?)
    ensures r.Some? ==>
      && r.value.email == (if StrField(userDoc, "email").Some? then StrField(userDoc, "email") else authUser.value.email)
      && r.value.displayName == (if StrField(userDoc, "displayName").Some? then StrField(userDoc, "displayName")
                                 else authUser.value.displayName)
      && r.value.photoURL == (if StrField(userDoc, "photoURL").Some? then StrField(userDoc, "photoURL")
                              else authUser.value.photoURL)
    ensures r.Some? ==>
      && r.value.username == StrField(userDoc, "username")
      && r.value.phoneNumber == StrField(userDoc, "phoneNumber")
  {
    if authUser.None? then None
    else
      var a := authUser.value;
      Some(AppUserProfile(
        uid := a.uid,
        email := Coalesce(StrField(userDoc, "email"), a.email),
        displayName := Coalesce(StrField(userDoc, "displayName"), a.displayName),
        photoURL := Coalesce(StrField(userDoc, "photoURL"), a.photoURL),
        username := StrField(userDoc, "username"),
        phoneNumber := StrField(userDoc, "phoneNumber"),
        isAdmin := adminRoleDoc.Some?))
  }

  datatype ProfileState = ProfileState(userProfile: Option<AppUserProfile>, isLoading: bool)

  /** The hook's result: the composed profile and the OR of the three loading flags. */
  function UseUserProfile(authUser: Option<AuthUser>, isAuthLoading: bool,
                          userDoc: Option<Doc>, isDocLoading: bool,
                          adminRoleDoc: Option<Doc>, isAdminRoleLoading: bool): (s: ProfileState)
    ensures s.isLoading <==> isAuthLoading || isDocLoading || isAdminRoleLoading
    ensures s.userProfile == ComposeProfile(authUser, userDoc, adminRoleDoc)
  {
    ProfileState(ComposeProfile(authUser, userDoc, adminRoleDoc),
                 isAuthLoading || isDocLoading || isAdminRoleLoading)
  }

  /** The profile once both subscriptions have delivered the store's current documents. */
  function ProfileFromStore(docs: map<Path, Doc>, authUser: Option<AuthUser>): Option<AppUserProfile>
  {
    if authUser.None? then None
    else ComposeProfile(authUser, LoadedDoc(docs, UserPath(authUser.value.uid)),
                        LoadedDoc(docs, AdminRolePath(authUser.value.uid)))
  }

  /** Admin rights come from the existence of `roles_admin/{uid}`, and from nothing else. */
  lemma AdminIffRoleDocument(docs: map<Path, Doc>, user: AuthUser)
    ensures ProfileFromStore(docs, Some(user)).Some?
    ensures ProfileFromStore(docs, Some(user)).value.isAdmin <==> AdminRolePath(user.uid) in docs
  {
  }

  /** The contents of the role document do not matter, only that it exists. */
  lemma RoleDocumentContentsIgnored(authUser: Option<AuthUser>, userDoc: Option<Doc>, role1: Doc, role2: Doc)
    ensures ComposeProfile(authUser, userDoc, Some(role1)) == ComposeProfile(authUser, userDoc, Some(role2))
  {
  }

  /** The `isAdmin` field of `users/{uid}` does not affect the composed profile. */
  lemma StoredAdminFlagIgnored(authUser: Option<AuthUser>, userDoc: Doc, flag: Value, adminRoleDoc: Option<Doc>)
    ensures ComposeProfile(authUser, Some(userDoc["isAdmin" := flag]), adminRoleDoc)
         == ComposeProfile(authUser, Some(userDoc), adminRoleDoc)
  {
    var d := userDoc["isAdmin" := flag];
    assert forall k :: k != "isAdmin" ==> StrField(Some(d), k) == StrField(Some(userDoc), k);
  }

  /** Without a stored document every displayed field falls back to the identity's own, and the optional ones are absent. */
  lemma ProfileWithoutDocument(user: AuthUser, adminRoleDoc: Option<Doc>)
    ensures var p := ComposeProfile(Some(user), None, adminRoleDoc).value;
      && p.email == user.email && p.displayName == user.displayName && p.photoURL == user.photoURL
      && p.username.None? && p.phoneNumber.None?
  {
  }
}
