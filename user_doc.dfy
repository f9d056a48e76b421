/** `ensureUserProfileDocument` (src/lib/user.ts): a merge write of the identity's public attributes into `users/{uid}`. */
module UserDoc {
  import opened Wrappers
  import opened Types
  import opened DocStore
  import opened UserProfileHook

  /** The fields the call writes, with `isAdmin` always false. */
  function ProfileSeed(user: AuthUser): (d: Doc)
    ensures d.Keys == {"uid", "email", "displayName", "photoURL", "isAdmin"}
    ensures d["isAdmin"] == Bool(false)
  {
    map["uid" := Str(user.uid),
        "email" := NullableStr(user.email),
        "displayName" := NullableStr(user.displayName),
        "photoURL" := NullableStr(user.photoURL),
        "isAdmin" := Bool(false)]
  }

  /** The store after the merge write. */
  function EnsuredDocs(docs: map<Path, Doc>, user: AuthUser): map<Path, Doc>
  {
    docs[UserPath(user.uid) := Merge(Existing(docs, UserPath(user.uid)), ProfileSeed(user))]
  }

  method EnsureUserProfileDocument(store: Store, user: Option<AuthUser>)
    modifies store
    ensures user.None? ==> store.docs == old(store.docs)
    ensures user.Some? ==> store.docs == EnsuredDocs(old(store.docs), user.value)
  {
    if user.None? {
      return;
    }
    store.SetMerge(UserPath(user.value.uid), ProfileSeed(user.value));
  }

  /**
   * Afterwards `users/{uid}` exists and holds the identity's attributes with
   * `isAdmin` false, every other field of the old document is kept, and no
   * other document changes.
   */
  lemma EnsuredDocument(docs: map<Path, Doc>, user: AuthUser)
    ensures var after := EnsuredDocs(docs, user);
      var d := after[UserPath(user.uid)];
      && UserPath(user.uid) in after
      && d["uid"] == Str(user.uid)
      && d["email"] == NullableStr(user.email)
      && d["displayName"] == NullableStr(user.displayName)
      && d["photoURL"] == NullableStr(user.photoURL)
      && d["isAdmin"] == Bool(false)
      && (forall k :: k in Existing(docs, UserPath(user.uid)) && k !in ProfileSeed(user) ==>
            k in d && d[k] == Existing(docs, UserPath(user.uid))[k])
      && (forall p :: p != UserPath(user.uid) ==> (p in after <==> p in docs))
      && (forall p :: p != UserPath(user.uid) && p in docs ==> after[p] == docs[p])
  {
  }

  /** Calling twice with the same identity leaves the store as calling once. */
  lemma EnsureIdempotent(docs: map<Path, Doc>, user: AuthUser)
    ensures EnsuredDocs(EnsuredDocs(docs, user), user) == EnsuredDocs(docs, user)
  {
    var p := UserPath(user.uid);
    MergeIdempotent(Existing(docs, p), ProfileSeed(user));
  }

  /**
   * The written `isAdmin: false` changes nobody's admin rights, which come
   * from `roles_admin`; and the composed profile of the identity then shows
   * exactly its own email, display name and photo.
   */
  lemma EnsureAndResolve(docs: map<Path, Doc>, user: AuthUser, viewer: AuthUser)
    ensures ProfileFromStore(EnsuredDocs(docs, user), Some(viewer)).value.isAdmin
         == ProfileFromStore(docs, Some(viewer)).value.isAdmin
    ensures var p := ProfileFromStore(EnsuredDocs(docs, user), Some(user)).value;
      p.email == user.email && p.displayName == user.displayName && p.photoURL == user.photoURL
  {
    var after := EnsuredDocs(docs, user);
    assert AdminRolePath(viewer.uid) != UserPath(user.uid) by {
      assert AdminRolePath(viewer.uid)[0] != UserPath(user.uid)[0];
    }
    var d := after[UserPath(user.uid)];
    assert user.email.Some? ==> d["email"] == Str(user.email.value);
    assert user.displayName.Some? ==> d["displayName"] == Str(user.displayName.value);
    assert user.photoURL.Some? ==> d["photoURL"] == Str(user.photoURL.value);
  }
}
