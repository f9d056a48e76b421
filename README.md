# Gameverse storefront core, modelled in Dafny

Gameverse is a storefront for PC games. Visitors browse a catalogue and keep a
cart in the hosted document store, then check out by paying through a QR code.
An administrator edits the catalogue and the payment QR code behind an access
gate.

This project models the parts of the storefront that decide what is written to
the store, who is an administrator, and what each page shows:

- **Order placement on the checkout page.** One batch writes the order and
  deletes every cart line.
- **The cart total and the cart and checkout views.**
- **The profile hook.** It builds one profile from the signed-in identity, its
  `users/{uid}` document and its `roles_admin/{uid}` document.
- **The admin gate.**
- **The profile seed written after sign-in**, and **the profile form.**
- **The payment settings form.**
- **The admin game form**: its schema, tag parsing, default values and save.
- **The games table.**
- **The mock catalogue and its lookups.**
- **The admin breadcrumbs and sidebar.**
- **The site chrome**, **the user menu** and **the star rating.**

Modules follow the source files, one module per file.

**How things are represented**

- **The store.** It is a class `DocStore.Store` whose field `docs` maps
  document paths to documents. A path is a sequence of segments, so
  `users/{uid}/carts/{id}` becomes `["users", uid, "carts", id]`. A document is
  a map from field names to values.
  - Every write the pages make goes through a method of this class. It
    replaces, merges, updates, deletes, adds at a fresh id, or commits a batch
    all-or-nothing.
  - The non-blocking helpers are the same writes with no outcome reported back.
- **Money.** Prices and totals are integers in paise, so ₹59.99 is `5999`.
- **Missing values.** `null` and `undefined` are both `Option.None`.
- **Parameters for what the pages get from outside.** The current time,
  whether a batch commit succeeds, whether the identity provider's
  `updateProfile` succeeds, the URL check of the schema library and the
  random shuffle order are all parameters.
- **UI effects.** Which toast fires is an outcome value; a redirect is a field of the page's view value.

**Behaviour of the code worth knowing**

- **Admin rights.** The hook derives admin rights from whether
  `roles_admin/{uid}` exists (`src/hooks/use-user-profile.ts:52`). The
  `isAdmin` field of `users/{uid}` plays no part (see `StoredAdminFlagIgnored`
  and `EnsureAndResolve`).
- **The profile seed.** `ensureUserProfileDocument` does a merge write on
  every call, even when the document already exists (`src/lib/user.ts:32`).
  The write is idempotent (`EnsureIdempotent`).
- **Order status.** Checkout writes `status: false`, a boolean, and not
  `'Pending'` (`src/app/checkout/page.tsx:69`). The checkout order record
  therefore carries a `bool` status, and it is kept apart from `Types.Order`,
  whose status is `Pending | Delivered`.
- **Slugs.** The game form checks only that a slug is at least two characters
  long. Nothing compares it with the slugs of other games. When two games
  share a slug, the lookup by slug returns the first one
  (`DuplicateSlugShadows`).

## Model

| member | source | states |
|---|---|---|
| DocStore.NullableStr | src/lib/user.ts:23-25 | a nullable field is stored as `null` exactly when the value is absent, and as that string when it is present |
| DocStore.LoadedDoc | src/hooks/use-user-profile.ts:28 | a subscription delivers data exactly when the document exists, and then it delivers the document stored at the path |
| DocStore.Merge | src/lib/user.ts:32 | a merge write keeps the union of keys, overwrites the listed fields and keeps every other field |
| DocStore.MergeIdempotent | src/lib/user.ts:32 | merging the same fields twice equals merging them once |
| DocStore.ApplyDeletes | src/app/checkout/page.tsx:79-82 | a batch of deletes removes exactly its paths and leaves every other document unchanged |
| DocStore.FreshIdExists | src/app/checkout/page.tsx:76 | every collection has an id that no document uses yet |
| DocStore.Store.Set | src/app/admin/settings/page.tsx:62 | a replacing write puts exactly the new document at the path |
| DocStore.Store.SetMerge | src/lib/user.ts:32 | a merge write creates the document if it is missing and merges the fields into it |
| DocStore.Store.Update | src/components/admin/game-form.tsx:74 | an update merges the fields into the document at the path |
| DocStore.Store.Delete | src/components/admin/games-table.tsx:61 | a delete removes the path and nothing else |
| DocStore.Store.NewId | src/app/checkout/page.tsx:76 | a new document reference gets an id that is unused in its collection |
| DocStore.Store.Add | src/components/admin/game-form.tsx:83 | an add puts the document at an id that was unused before, and changes nothing else |
| DocStore.Store.Commit | src/app/checkout/page.tsx:85 | a batch commit either applies every write in order or applies none |
| Text.JoinSplit | src/components/admin/game-form.tsx:42 | joining the pieces of a split with the separator gives back the original string |
| Text.Split | src/components/admin/game-form.tsx:42 | `split` gives at least one piece, and no piece contains the separator |
| Text.Join | src/components/admin/game-form.tsx:57 | joining no parts gives ""; a join starts with its first part |
| Text.SplitConcat | src/components/admin/admin-layout.tsx:40 | splitting at a separator splits the text on each side independently, keeping the order of the pieces |
| Text.SplitJoin | src/components/admin/game-form.tsx:57 | splitting a join of separator-free pieces gives back the pieces |
| Text.Trim | src/components/admin/game-form.tsx:42 | `trim` leaves no whitespace at either end |
| Text.LeadingSpace | src/components/admin/game-form.tsx:42 | the leading whitespace run: every character before it is whitespace, and it ends at a non-whitespace character or at the end |
| Text.TrimRemovesOuterSpace | src/components/admin/game-form.tsx:42 | the trimmed string is the slice of the input that starts after the leading whitespace, and everything cut off after it is whitespace too |
| Text.TrimKeepsAbsent | src/components/admin/game-form.tsx:42 | trimming adds no character that was not there |
| Text.TrimOfTrimmed | src/components/admin/game-form.tsx:42 | a string without outer whitespace is unchanged by a trim, even after one leading blank is added |
| Text.UpperChar | src/components/auth/user-nav.tsx:53 | `toUpperCase` maps a–z to A–Z and leaves every other character unchanged |
| Text.Utf16Length | src/app/profile/page.tsx:24-28 | the length a schema's `min`/`max` measures: one code unit per character, two above U+FFFF, so it equals the character count for text in the Basic Multilingual Plane |
| Text.Utf16LengthAppend | src/app/profile/page.tsx:24-28 | the code-unit length of two strings laid end to end is the sum of their lengths |
| Text.NonEmptyPieces | src/components/admin/admin-layout.tsx:40 | `filter(part => part)` keeps exactly the non-empty pieces as members, and no empty one; their order and repetitions are stated by `Text.NonEmptyPiecesAppend` |
| Text.NonEmptyPiecesAppend | src/components/admin/admin-layout.tsx:40 | the filter works piece by piece: it keeps the order and the repetitions of the non-empty pieces |
| Cart.Total | src/app/cart/page.tsx:47 | an empty cart totals 0; a cart with no negative price or quantity totals at least 0 |
| Cart.TotalAppend | src/app/cart/page.tsx:47 | the total of two carts laid end to end is the sum of their totals |
| Cart.DisplayedTotal | src/app/cart/page.tsx:47 | the total shown is 0 when the cart has not loaded (`?? 0`), and the cart's total when it has |
| Cart.CartView | src/app/cart/page.tsx:37-104 | redirects to /login exactly when loading is done and no user is signed in; shows the loading screen while the user is loading or absent; then shows the skeleton, the empty message or the items, each under its exact condition; the checkout button is always disabled |
| Cart.CartSectionsExclusive | src/app/cart/page.tsx:52-72 | past the loading screen, exactly one of skeleton, empty message and item list is shown |
| Checkout.OrderItemsTotal | src/app/checkout/page.tsx:52-68 | the order lines add up to the cart total |
| Checkout.NewOrderRecord | src/app/checkout/page.tsx:59-71 | the order has the user's id and email, one line per cart line with the same game, title, price and quantity, a total equal to the cart total and to the sum of its lines, status false, and the current time |
| Checkout.OrderDoc | src/app/checkout/page.tsx:59-71 | the stored order has exactly the six order fields |
| Checkout.OrderDocRoundTrip | src/app/checkout/page.tsx:59-77 | reading a stored order back gives the order record unchanged |
| Checkout.BuildBatch | src/app/checkout/page.tsx:73-82 | the batch sets the order first, then deletes each cart line, in cart order |
| Checkout.BatchEffect | src/app/checkout/page.tsx:73-85 | committing that batch adds the order and removes exactly the cart lines' documents |
| Checkout.PlacementEffect | src/app/checkout/page.tsx:73-85 | a placement adds exactly one document, the order at its fresh id; it removes every cart line and leaves every other document unchanged |
| Checkout.CheckoutView | src/app/checkout/page.tsx:32-160 | redirects to /login exactly when the user has loaded and there is none; shows the spinner while anything loads or no user is signed in; shows the empty-cart card for an absent or empty cart; otherwise shows the payment page with the QR code exactly when an address is configured, the button disabled exactly while an order is being placed, and the cart total |
| Checkout.CheckoutPage.constructor | src/app/checkout/page.tsx:29 | the page starts with no placement in progress |
| Checkout.CheckoutPage.HandlePlaceOrder | src/app/checkout/page.tsx:54-100 | does nothing exactly when the store, the user or a non-empty cart is missing; on success the store holds the new order at an id that was unused before, the cart lines are gone and nothing else changed; on failure the store is unchanged and the in-progress flag is cleared |
| UserProfileHook.StrField | src/hooks/use-user-profile.ts:46-50 | a string field is read exactly when the document exists and stores a string there |
| UserProfileHook.ComposeProfile | src/hooks/use-user-profile.ts:40-54 | there is a profile exactly when a user is signed in; it has the user's uid; it is admin exactly when the role document exists; email, display name and photo come from the stored document, else from the identity; username and phone come only from the document |
| UserProfileHook.UseUserProfile | src/hooks/use-user-profile.ts:56-59 | the hook is loading exactly when any of its three sources is loading |
| UserProfileHook.AdminIffRoleDocument | src/hooks/use-user-profile.ts:30-37 | a signed-in user is an administrator exactly when `roles_admin/{uid}` exists in the store |
| UserProfileHook.RoleDocumentContentsIgnored | src/hooks/use-user-profile.ts:52 | what the role document contains does not change the profile |
| UserProfileHook.StoredAdminFlagIgnored | src/hooks/use-user-profile.ts:51-52 | the `isAdmin` field of `users/{uid}` does not change the profile |
| UserProfileHook.ProfileWithoutDocument | src/hooks/use-user-profile.ts:46-50 | without a stored document, email, name and photo are the identity's, and username and phone are absent |
| AdminGate.Gatekeep | src/app/admin/layout.tsx:12-33 | admin content shows exactly when loading is done and the profile is an administrator's; the page redirects home exactly when loading is done and it is not; while loading, it shows the spinner and does not redirect |
| AdminGate.AdminContentRequiresRoleDocument | src/app/admin/layout.tsx:21-33 | admin content is reached only by a signed-in user whose role document exists, once all three subscriptions have loaded |
| UserDoc.ProfileSeed | src/lib/user.ts:21-29 | the seed holds exactly uid, email, displayName, photoURL and isAdmin, with isAdmin false |
| UserDoc.EnsureUserProfileDocument | src/lib/user.ts:15-33 | writes nothing without a user; otherwise merges the seed into `users/{uid}` |
| UserDoc.EnsuredDocument | src/lib/user.ts:19-32 | afterwards `users/{uid}` exists and holds the identity's attributes with isAdmin false; every other field of the old document is kept, and no other document changes |
| UserDoc.EnsureIdempotent | src/lib/user.ts:32 | calling twice with the same user leaves the store as one call does |
| UserDoc.EnsureAndResolve | src/lib/user.ts:26-28 | the written `isAdmin: false` changes no one's admin rights; the user's composed profile then shows their own email, name and photo |
| ProfilePage.ProfileErrors | src/app/profile/page.tsx:24-28 | display name is 2–50 UTF-16 code units; username is empty or 3–30; phone is empty or at least 10; each holds in both directions |
| ProfilePage.OrEmpty | src/app/profile/page.tsx:125-127 | the fallback to "" gives the value when present, else "" |
| ProfilePage.FormReset | src/app/profile/page.tsx:122-130 | the form is filled from the profile, with "" for each absent field |
| ProfilePage.ProfileView | src/app/profile/page.tsx:115-172 | redirects to /login exactly when loading is done and there is no profile; shows the loading screen while loading or without a profile; otherwise shows the form reset to the profile's values |
| ProfilePage.ProfileUpdate | src/app/profile/page.tsx:150-154 | the save writes exactly displayName, username and phoneNumber |
| ProfilePage.SubmitProfile | src/app/profile/page.tsx:132-168 | rejects invalid values with their errors; without a profile or a current user the result is "Not authenticated"; when the identity update fails the result is "Update failed"; the profile is saved exactly when valid, authenticated and the identity update succeeds, and then the three fields are merged into `users/{uid}`; otherwise nothing is written |
| ProfilePage.SaveKeepsOtherFields | src/app/profile/page.tsx:150-154 | a save keeps every stored field other than the three, isAdmin and email included |
| ProfilePage.SavedProfileReloads | src/app/profile/page.tsx:122-154 | after a save, the reloaded profile fills the form with exactly the saved values |
| SettingsPage.ConfigDoc | src/app/admin/settings/page.tsx:62 | the saved document holds `qrCodeUrl` and nothing else |
| SettingsPage.DecodeConfig | src/app/admin/settings/page.tsx:33 | a configuration is delivered exactly when the document exists; its address is the stored string, or "" when the field is missing or not a string |
| SettingsPage.ResetOnLoad | src/app/admin/settings/page.tsx:44-50 | once loaded, the form field holds the stored address; before that it keeps its value |
| SettingsPage.SubmitSettings | src/app/admin/settings/page.tsx:52-67 | an empty address is rejected; without a store the result is an error; the settings are saved exactly when the address is non-empty and a store exists, and then `payment_qr/current` is replaced by the new document; otherwise nothing is written |
| SettingsPage.SavedConfigReplacesAndReloads | src/app/admin/settings/page.tsx:44-62 | a save leaves no old field behind, and reloading refills the form with the saved address |
| SettingsPage.Preview | src/app/admin/settings/page.tsx:121-130 | one preview element: the image of the typed address when there is one, else the skeleton while loading, else the "No QR Code set" text |
| GameForm.ParseTags | src/components/admin/game-form.tsx:42 | one tag per comma-separated piece, each the trimmed piece, so with no comma and no outer whitespace |
| GameForm.GameErrors | src/components/admin/game-form.tsx:31-43 | each field's rule holds in both directions: title and slug at least 2 UTF-16 code units, platform PC, price not negative, short description 10–160 code units, description at least 20, valid image and banner URLs, tags non-empty |
| GameForm.ValidateGame | src/components/admin/game-form.tsx:31-43 | parsing succeeds exactly when no rule is broken, and otherwise reports the broken fields; on success every field is passed on, the platform is PC, and the tags are parsed |
| GameForm.DefaultValues | src/components/admin/game-form.tsx:56-58 | a new game starts with platform PC and price 0; an edited game starts with its own values and its tags joined by ", " |
| GameForm.JoinCommaSpace | src/components/admin/game-form.tsx:57 | joining with ", " is joining with "," after adding a blank before every tag but the first |
| GameForm.SplitJoinedTags | src/components/admin/game-form.tsx:42-57 | a ", "-joined tag list splits at "," into those padded pieces, and each piece trims back to its tag |
| GameForm.EditKeepsTags | src/components/admin/game-form.tsx:42-57 | resubmitting an edited game's default tags gives back the same tags, when the tags contain no comma and no outer whitespace |
| GameForm.GameDoc | src/components/admin/game-form.tsx:31-45 | the written document has exactly the nine form fields, each holding its parsed value, plus each hint that is set, holding that hint; so no id, rating or system requirements |
| GameForm.FormFields | src/components/admin/game-form.tsx:31-42 | the nine always-written fields are title, slug, platform, price, both descriptions, both image addresses and tags, each holding the submitted value (the platform by name, the tags as a list of strings) |
| GameForm.WithHint | src/components/admin/game-form.tsx:38-40 | an optional hint is written exactly when it is given, and leaves every other field as it was |
| GameForm.UpdateKeepsUnsubmittedFields | src/components/admin/game-form.tsx:73-74 | an update keeps every stored field the form does not submit, rating and system requirements included |
| GameForm.SubmitGame | src/components/admin/game-form.tsx:65-90 | invalid input is rejected and nothing is written; without a store the result is an error; when editing, exactly one merge into `games/{id}`; when adding, exactly one new document at a fresh id |
| GamesTable.HandleDelete | src/components/admin/games-table.tsx:51-66 | reports an error exactly when there is no store; otherwise removes `games/{id}` and nothing else |
| GamesTable.PriceCell | src/components/admin/games-table.tsx:134 | the price reads "Free" exactly when it is not positive |
| GamesTable.GamesTableView | src/components/admin/games-table.tsx:98-184 | five skeleton rows while loading; one row per loaded game, in order, with that game's id, title and platform and a price cell that reads "Free" exactly when the price is not positive and otherwise the amount in paise; the empty-state text exactly when the loaded list is empty and loading is done |
| CatalogData.Games | src/lib/data.ts:3-88 | six sample games, all on PC, none with a negative price |
| CatalogData.SampleOrdersConsistent | src/lib/data.ts:94-118 | each sample order's total is the sum of its lines |
| CatalogData.SampleSlugsDistinct | src/lib/data.ts:3-88 | no two sample games share a slug |
| CatalogData.GetGames | src/lib/data.ts:121-123 | six games, all on PC, none with a negative price, no two with one slug |
| CatalogData.GetPaymentConfig | src/lib/data.ts:133-135 | the configuration has a QR code address to show |
| CatalogData.GetAllOrders | src/lib/data.ts:141-143 | two orders by user-1, both with consistent totals: the first delivered at its fixed time, the second pending and stamped at load time |
| CatalogData.FindBySlug | src/lib/data.ts:126 | `find` returns nothing exactly when no game has the slug; otherwise it returns a game with the slug that has no earlier match |
| CatalogData.GetGameBySlug | src/lib/data.ts:125-127 | the lookup returns nothing exactly when no sample game has the slug; otherwise a sample game with that slug |
| CatalogData.FindOwnSlug | src/lib/data.ts:126 | when slugs are distinct, every game is found by its own slug |
| CatalogData.DuplicateSlugShadows | src/lib/data.ts:126 | when two games share a slug, the earlier one is returned |
| CatalogData.SampleSlugsFindTheirGame | src/lib/data.ts:125-127 | every sample game is found by its own slug |
| CatalogData.FilterByUser | src/lib/data.ts:138 | the filter keeps exactly the orders of that user as members, and never more orders than it was given; their order and repetitions are stated by `CatalogData.FilterByUserAppend` |
| CatalogData.FilterByUserAppend | src/lib/data.ts:138 | the filter works order by order: it keeps the orders' sequence and repetitions |
| CatalogData.GetOrdersForUser | src/lib/data.ts:137-139 | the orders returned are exactly the sample orders placed by that user |
| CatalogData.SampleOrdersByUser | src/lib/data.ts:94-139 | user-1 gets both sample orders; every other user gets none |
| CatalogData.SliceEnd | src/lib/data.ts:130 | `slice(0, count)` ends at min(count, n) for count ≥ 0 and at max(n + count, 0) for a negative count |
| CatalogData.Featured | src/lib/data.ts:130 | the featured list has the slice length and follows the shuffle order; each pick is a catalogue game, and every game appears when the whole list is taken |
| CatalogData.ShuffledCoversAll | src/lib/data.ts:130 | every game appears in the shuffled list |
| CatalogData.FeaturedDistinct | src/lib/data.ts:130 | over a catalogue whose slugs are distinct, no game is picked twice: any two picks have different slugs |
| CatalogData.GetFeaturedGames | src/lib/data.ts:129-131 | `count` of the six games (all six at most), in shuffled order, each a catalogue game |
| AdminLayout.Segments | src/components/admin/admin-layout.tsx:40 | the path segments are exactly the non-empty pieces between slashes, as members; their order is stated by `AdminLayout.SegmentsConcat` |
| AdminLayout.SegmentsHaveNoSlash | src/components/admin/admin-layout.tsx:40 | no segment contains a slash |
| AdminLayout.SegmentsConcat | src/components/admin/admin-layout.tsx:40 | the segments of two paths joined by a slash are the first path's segments followed by the second's, in order |
| AdminLayout.CrumbText | src/components/admin/admin-layout.tsx:52 | the label of a segment without '-' is that segment capitalised |
| AdminLayout.TitleCaseAt | src/components/admin/admin-layout.tsx:52 | character by character: a '-' becomes a blank; a character after '-' or at the start is uppercased; every other character is kept |
| AdminLayout.CrumbTextIsTitleCase | src/components/admin/admin-layout.tsx:52 | the split, capitalise and join of a segment equals that character rule |
| AdminLayout.CrumbTextShape | src/components/admin/admin-layout.tsx:52 | the crumb text is as long as the segment, with a blank exactly where the segment has '-' or a blank |
| AdminLayout.AdminBreadcrumbs | src/components/admin/admin-layout.tsx:40-56 | the heading shows exactly when there is at most one segment; otherwise one crumb per segment after the first, only the last marked last, each with its segment's text and the "/admin/"-rooted prefix as its link |
| AdminLayout.HrefExtends | src/components/admin/admin-layout.tsx:50 | each crumb's link is the previous link, a slash and the next segment |
| AdminLayout.HrefSegments | src/components/admin/admin-layout.tsx:50 | the segments of a crumb's link are "admin" followed by the path's segments up to that crumb |
| AdminLayout.IsActive | src/components/admin/admin-layout.tsx:101-104 | the dashboard entry is active only on "/admin"; any other entry is active exactly on the paths whose first characters are its link |
| AdminLayout.AtMostOneActive | src/components/admin/admin-layout.tsx:101-104 | no path highlights two sidebar entries |
| AdminLayout.ActiveIsNotSegmentAware | src/components/admin/admin-layout.tsx:101-104 | example: "/admin/gamesroom" highlights Games, and the dashboard is not active on "/admin/games" |
| AdminLayout.IconFor | src/components/admin/admin-layout.tsx:31-36 | a name has no icon exactly when it is not one of the four iconed entries |
| AdminLayout.OnlyMessagesLacksIcon | src/lib/constants.ts:8-14 | example: of the sidebar entries, exactly "Messages" renders without an icon |
| AppLayout.IsAdminPage | src/components/layout/app-layout.tsx:11 | a path is an admin page exactly when its first six characters are "/admin" |
| AppLayout.IsAuthPage | src/components/layout/app-layout.tsx:12 | a path is an auth page exactly when it begins with "/login" or with "/signup" |
| AppLayout.PageKindsDisjoint | src/components/layout/app-layout.tsx:11-12 | no path is both an admin page and an auth page |
| AppLayout.PageKindsExtend | src/components/layout/app-layout.tsx:11-12 | every path that continues an admin or auth path is one too |
| AppLayout.ChromeFor | src/components/layout/app-layout.tsx:11-28 | the page is bare exactly on admin and auth paths; otherwise it has header, main content, FAQ and footer, in that order |
| AppLayout.LookAlikePathsAreBare | src/components/layout/app-layout.tsx:11-12 | example: the prefix test also makes "/administrator", "/login-help" and "/signups" bare, while "/games" keeps the full layout |
| UserNav.FirstUpper | src/components/auth/user-nav.tsx:53 | `charAt(0).toUpperCase()` is empty for an empty string, and otherwise the first character, uppercased (a whole character, not a UTF-16 code unit) |
| UserNav.AvatarInitial | src/components/auth/user-nav.tsx:53 | the initial comes from the display name, else from the email, else "U"; it is at most one character |
| UserNav.EmptyDisplayNameHasNoInitial | src/components/auth/user-nav.tsx:53 | an empty display name gives an empty initial: `??` does not fall through for "" |
| UserNav.UserNavView | src/components/auth/user-nav.tsx:38-92 | the Login link shows exactly when there is no user; otherwise the menu shows the avatar initial, starts with Profile and My Orders, ends with Log out, and has Admin Panel exactly when isAdmin is true |
| UserNav.MockedNavShowsLogin | src/components/auth/user-nav.tsx:20-44 | as shipped, the menu shows only the Login link |
| GameRating.Trunc | src/components/game-rating.tsx:14 | truncation toward zero |
| GameRating.ModOne | src/components/game-rating.tsx:14 | `x % 1` lies strictly between -1 and 1 and has the sign of x |
| GameRating.Counts | src/components/game-rating.tsx:12-15 | full stars are the floor; the partial star is positive exactly when the rating is positive and fractional; empty stars take up the rest |
| GameRating.RenderStars | src/components/game-rating.tsx:12-33 | a drawn row has the floor of the rating as full stars, a partial star exactly when the rating is positive and fractional, and totalStars stars in all; the RangeError comes exactly from a negative full or empty count |
| GameRating.RenderStarsInRange | src/components/game-rating.tsx:12-33 | the row draws exactly when 0 ≤ rating ≤ totalStars, and then has totalStars stars, one partial exactly when the rating is fractional |
| GameRating.WholeRating | src/components/game-rating.tsx:13-15 | a whole rating draws only full and empty stars |

## Left out

- **The store client and the identity provider.** The SDK, network round trips, listeners, security rules and sign-in are not modelled. The store is a map of documents, and subscriptions deliver the current document.
- **Concurrency.** Writes are modelled one at a time. Concurrent tabs, listener timing and the late settling of non-blocking writes are not.
- **Update of a missing document.** `DocStore.Store.Update` merges into the document, or into an empty document when there is none. The store's not-found error for an update of a missing document is not modelled.
- **Individual write failures.** A failure inside a non-blocking write is not modelled. Only the checkout batch commit has a failure path, and its success is a parameter.
- **Toasts, navigation and rendering.** Toast texts and the markup are not modelled. Which toast fires is an outcome value, and each `/login` or home redirect is the `redirectToLogin` or `redirectHome` field of a view value. The router itself and the navigation to /orders after an order are not modelled.
- GameForm.GameErrors and GameForm.ValidateGame: the price is taken as a whole number of paise, already parsed. The schema's `z.coerce.number()` over the text of the number input is not modelled. A blank price field therefore coerces to 0, passes `min(0)` and is saved as a free game, and a price with more than two decimals, such as 59.999, is kept unrounded. Neither case is represented.
- **The URL check.** The schema library's `.url()` becomes the parameter `isUrl`.
- **Uploading the QR image.** Reading the file into a data URL with FileReader is left out. The form receives the address string.
- **URL decoding.** `decodeURIComponent` in the breadcrumbs is treated as the identity. That is exact only for segments without '%': a segment holding a `%xx` escape is labelled undecoded here ("my%20game" reads "My%20game", where the page shows "My game"), and a malformed escape, on which the page throws, is not modelled.
- **Character handling.** `trim` and `toUpperCase` are modelled over ASCII whitespace and the letters a–z only. Lengths in the schemas count UTF-16 code units (`Text.Utf16Length`).
- UserNav.FirstUpper and UserNav.AvatarInitial: `charAt(0)` takes one UTF-16 code unit, but the model takes the first whole character. For a display name or email whose first character lies above U+FFFF (such as "😀 Gamer"), the page gets half a surrogate pair and the model gets the whole character. Dafny's `char` cannot hold a lone surrogate.
- **Administrator emails.** `getAdminEmails` is kept as a constant, `CatalogData.GetAdminEmails`; no access rule reads it, so it has no row in the model table.
- **Number formatting.** `toFixed(2)` price formatting and `toFixed(1)` rating text are left out. `GamesTable.PriceLabel` carries the price in paise.
- **The partial star's width.** The floating-point width percentage is left out; only whether a partial star is drawn is modelled.
- **The shuffle.** `sort` with a random comparator becomes the parameter `order`. It is any permutation of the catalogue's indices.
- **The sample games' prose and images.** Descriptions and image addresses are the parameter `text`, looked up by game id. Ids, slugs, titles, platforms, prices and tags are modelled as written.
- **Image hints.** The data file's image hints are not part of `Types.Game`, so the catalogue drops them. The game form does carry its own hint fields.
- **The second sample order's time.** Its creation time is the moment the data is loaded, so it is the parameter `loadTime`.
- **Order status changes.** Admin order management, which changes an order's status, is not part of this model.
- **Mistyped stored fields.** A stored non-string value in a string field of the profile is read as absent, and a stored non-string `qrCodeUrl` is read as "" (`SettingsPage.DecodeConfig`).
- CatalogData.GetGames: states the number of games, their platform, their prices and distinct slugs, but not each game's individual fields. Those are in `CatalogData.Games`'s definition.
- CatalogData.GetPaymentConfig: states only that the QR code address is non-empty, not the fixed sample address.
- GameForm.EditKeepsTags: holds only for tags without commas or outer whitespace. A tag with a comma splits apart on resubmission, and a tag with outer whitespace is trimmed.
