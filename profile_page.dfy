/** The profile form (src/app/profile/page.tsx): its schema, how it is filled, and what saving writes. */
module ProfilePage {
  import opened Wrappers
  import opened Types
  import opened DocStore
  import opened UserProfileHook
  import opened Text

  /** The form's values; every input starts as "" and always holds a string. */
  datatype ProfileForm = ProfileForm(displayName: string, username: string, phoneNumber: string)

  datatype ProfileField = DisplayNameField | UsernameField | PhoneNumberField

  /** `profileFormSchema`: the fields whose rule the values break. */
  function ProfileErrors(f: ProfileForm): (errs: set<ProfileField>)
    ensures DisplayNameField !in errs <==> 2 <= Utf16Length(f.displayName) <= 50
    ensures UsernameField !in errs <==> f.username == "" || 3 <= Utf16Length(f.username) <= 30
    ensures PhoneNumberField !in errs <==> f.phoneNumber == "" || 10 <= Utf16Length(f.phoneNumber)
  {
    (if 2 <= Utf16Length(f.displayName) && Utf16Length(f.displayName) <= 50 then {} else {DisplayNameField})
    // `.min(3).max(30).optional().or(z.literal(''))`
    + (if (3 <= Utf16Length(f.username) && Utf16Length(f.username) <= 30) || f.username == "" then {} else {UsernameField})
    // `.min(10).optional().or(z.literal(''))`: no upper bound, no digit check
    + (if 10 <= Utf16Length(f.phoneNumber) || f.phoneNumber == "" then {} else {PhoneNumberField})
  }

  /** `value || ""`. */
  function OrEmpty(o: Option<string>): (s: string)
    ensures o.None? ==> s == ""
    ensures o.Some? ==> s == o.value
  {
    if o.Some? && o.value != "" then o.value else ""
  }

  /** The values the form is reset to once the profile has loaded. */
  function FormReset(p: AppUserProfile): (f: ProfileForm)
    ensures f.displayName == (if p.displayName.Some? then p.displayName.value else "")
    ensures f.username == (if p.username.Some? then p.username.value else "")
    ensures f.phoneNumber == (if p.phoneNumber.Some? then p.phoneNumber.value else "")
  {
    ProfileForm(OrEmpty(p.displayName), OrEmpty(p.username), OrEmpty(p.phoneNumber))
  }

  datatype ProfileScreen =
    | LoadingProfile                  // "Loading profile..."
    | ProfileEditor(reset: ProfileForm)  // the form, reset to the loaded profile's values

  /** What the page does on a render: the `/login` redirect of lines 115-119 and the screen of lines 170-172 on. */
  datatype ProfilePageState = ProfilePageState(redirectToLogin: bool, screen: ProfileScreen)

  function ProfileView(isProfileLoading: bool, profile: Option<AppUserProfile>): (v: ProfilePageState)
    ensures v.redirectToLogin <==> !isProfileLoading && profile.None?
    ensures v.redirectToLogin ==> v.screen.LoadingProfile?
    ensures v.screen.LoadingProfile? <==> isProfileLoading || profile.None?
    ensures v.screen.ProfileEditor? ==> profile.Some? && v.screen.reset == FormReset(profile.value)
  {
    var redirect := !isProfileLoading && profile.None?;
    if isProfileLoading || profile.None? then ProfilePageState(redirect, LoadingProfile)
    else ProfilePageState(redirect, ProfileEditor(FormReset(profile.value)))
  }

  /** The fields the save merges into `users/{uid}`: exactly the three form fields. */
  function ProfileUpdate(f: ProfileForm): (d: Doc)
    ensures d.Keys == {"displayName", "username", "phoneNumber"}
  {
    map["displayName" := Str(f.displayName), "username" := Str(f.username), "phoneNumber" := Str(f.phoneNumber)]
  }

  datatype ProfileOutcome =
    | Invalid(errors: set<ProfileField>)  // the schema rejected the values; `onSubmit` is not called
    | NotAuthenticated                    // destructive "Not authenticated" toast
    | Saved                               // "Profile updated" toast
    | UpdateFailed                        // destructive "Update failed" toast

  /**
   * `form.handleSubmit(onSubmit)`. The auth provider's `updateProfile` is a
   * foreign call: whether it succeeds is the parameter `authUpdateSucceeds`.
   */
  method SubmitProfile(store: Store, form: ProfileForm, profile: Option<AppUserProfile>,
                       hasCurrentUser: bool, authUpdateSucceeds: bool) returns (outcome: ProfileOutcome)
    modifies store
    ensures ProfileErrors(form) != {} ==> outcome == Invalid(ProfileErrors(form))
    ensures ProfileErrors(form) == {} && (profile.None? || !hasCurrentUser) ==> outcome == NotAuthenticated
    ensures outcome == Saved <==> ProfileErrors(form) == {} && profile.Some? && hasCurrentUser && authUpdateSucceeds
    ensures ProfileErrors(form) == {} && profile.Some? && hasCurrentUser && !authUpdateSucceeds ==> outcome == UpdateFailed
    ensures outcome == Saved ==>
      store.docs == old(store.docs)[UserPath(profile.value.uid) :=
                      Merge(Existing(old(store.docs), UserPath(profile.value.uid)), ProfileUpdate(form))]
    ensures outcome != Saved ==> store.docs == old(store.docs)
  {
    var errors := ProfileErrors(form);
    if errors != {} {
      return Invalid(errors);
    }
    if profile.None? || !hasCurrentUser {
      return NotAuthenticated;
    }
    if !authUpdateSucceeds {
      // `updateProfile` threw: the document write is never reached.
      return UpdateFailed;
    }
    store.SetMerge(UserPath(profile.value.uid), ProfileUpdate(form));
    outcome := Saved;
  }

  /** A save keeps `isAdmin`, `email`, `photoURL` and every other unlisted field of the stored profile. */
  lemma SaveKeepsOtherFields(doc: Doc, form: ProfileForm)
    ensures forall k :: k in doc && k !in {"displayName", "username", "phoneNumber"} ==>
      k in Merge(doc, ProfileUpdate(form)) && Merge(doc, ProfileUpdate(form))[k] == doc[k]
  {
  }

  /** After a save, the profile reloaded from the store fills the form with exactly the saved values. */
  lemma SavedProfileReloads(docs: map<Path, Doc>, user: AuthUser, form: ProfileForm)
    ensures var after := docs[UserPath(user.uid) := Merge(Existing(docs, UserPath(user.uid)), ProfileUpdate(form))];
      FormReset(ProfileFromStore(after, Some(user)).value) == form
  {
    var after := docs[UserPath(user.uid) := Merge(Existing(docs, UserPath(user.uid)), ProfileUpdate(form))];
    var d := after[UserPath(user.uid)];
    assert d["displayName"] == Str(form.displayName);
    assert d["username"] == Str(form.username);
    assert d["phoneNumber"] == Str(form.phoneNumber);
  }
}
