# Aura Perfumes storefront: the checkable core, in Dafny

This project models the parts of the Aura Perfumes storefront front end whose
behaviour can be stated and proved: the wishlist store (a reducer plus the
provider that wraps it), the catalogue filter and wishlist toggle of the
products page, the registration rules, the sign-in helpers, the derived values
and validators of the profile page, and the rules of the settings page.

Browser storage is a map from string keys to stored values (`Storage.LocalStorage`).
A stored value is plain text, the JSON of a users list, the JSON of one user, or
text that does not parse. `toLowerCase` and the regular-expression class `\s`
are taken over ASCII only.

Modules, one per source file plus four helpers:

- `Wrappers`: `Option` and `Result`.
- `Ascii`: character classes and ASCII lower-casing.
- `Seqs`: `filter` on sequences, with its order-preservation lemmas. Wishlist REMOVE and the catalogue filter share it.
- `Storage`: the user record, stored values and the storage object.
- `Wishlist`: `src/context/WishlistContext.tsx`.
- `Products`: `src/pages/Products.tsx`.
- `Register`: `src/pages/Register.tsx`.
- `Login`: `src/pages/Login.tsx`.
- `Profile`: `src/pages/Profile.tsx`.
- `Settings`: `src/pages/Settings.tsx`.

The wishlist reducer is the pure function `Wishlist.Reduce`. The provider is the
class `Wishlist.WishlistStore`. Each of its methods changes `items` exactly as
`Reduce` does for the matching action. They also keep the invariant that ids
are pairwise distinct, and log the toast they raise in a ghost `notices` list.
The products page's toggle is the module-level method
`Products.HandleWishlistToggle`, which takes the store as a parameter. Its
postcondition is that membership of the product's id flips.

Behaviour of the code the model keeps:

- The code does not check that an added item has an id, so `AddToWishlist` accepts any id string, the empty one included.
- The code has two different `getAllUsers`:
  - the registration page's version reads only `perfume_users`;
  - the sign-in page's version falls back to `perfume_user`.
  They are modelled separately, as `Register.StoredUsers` and `Login.AllUsers`.
- `findUserByEmail` and `validatePassword` are defined on the sign-in page but never called by its `handleSubmit`. That handler asks the remote endpoint instead. Both helpers are modelled as written. `Login.RegisteredUserSignsIn` connects them to registration.
- The profile page saves an edited profile under `perfume_user` only and leaves `perfume_users` alone. The model does the same (`Profile.ProfilePage.HandleSaveChanges`).

## Model

| member | source | states |
|---|---|---|
| `Ascii.LowerStr` | src/pages/Login.tsx:49 | lower-casing keeps the length and lower-cases each character in place |
| `Seqs.Filter` | src/context/WishlistContext.tsx:46 | the result keeps exactly the elements the callback accepts and is no longer than the input |
| `Seqs.FilterIsSubsequence` | src/pages/Products.tsx:52-54 | a filter keeps the relative order of what it keeps: its result is a subsequence of the input |
| `Seqs.FilterAppend` | src/context/WishlistContext.tsx:46 | filtering a concatenation is concatenating the filtered parts |
| `Seqs.FilterKeepsAll` | src/pages/Products.tsx:52-54 | when the callback accepts every element the filter returns its input unchanged |
| `Seqs.FilterPartition` | src/pages/Profile.tsx:53-54 | two complementary filters split the input: their lengths add up to its length |
| `Wishlist.Reduce` | src/context/WishlistContext.tsx:33-57 | definition of the reducer; its properties are stated by `AddPresentUnchanged`, `AddAbsentAppends`, `RemoveFilters`, `RemoveAt`, `ClearEmpties` and `ReducePreservesDistinct` |
| `Wishlist.AnyHasId` | src/context/WishlistContext.tsx:36 | the `some` scan holds exactly when some item has the id |
| `Wishlist.AddPresentUnchanged` | src/context/WishlistContext.tsx:36-39 | ADD of an id already present returns the same state, same length and contents |
| `Wishlist.AddAbsentAppends` | src/context/WishlistContext.tsx:40-43 | ADD of an absent id appends the item at the end; length grows by one; earlier items untouched; the id set grows by that id |
| `Wishlist.AddIdempotent` | src/context/WishlistContext.tsx:36-43 | adding the same item twice gives the state of adding it once |
| `Wishlist.RemoveFilters` | src/context/WishlistContext.tsx:45-50 | REMOVE leaves no item with the id, keeps every other item, keeps their order (subsequence), and is the identity when the id is absent |
| `Wishlist.RemoveAt` | src/context/WishlistContext.tsx:45-50 | with distinct ids, removing the id at position k deletes exactly position k |
| `Wishlist.RemoveIdempotent` | src/context/WishlistContext.tsx:45-50 | removing twice is removing once |
| `Wishlist.ClearEmpties` | src/context/WishlistContext.tsx:52-53 | CLEAR yields the empty list, so no id is a member afterwards |
| `Wishlist.FilterKeepsDistinct` | src/context/WishlistContext.tsx:46 | a filter of a list with distinct ids has distinct ids |
| `Wishlist.ReducePreservesDistinct` | src/context/WishlistContext.tsx:33-57 | every action keeps ids pairwise distinct |
| `Wishlist.ReduceAllPreservesDistinct` | src/context/WishlistContext.tsx:33-57 | any sequence of dispatches from a distinct state keeps ids distinct |
| `Wishlist.CountIsNumberOfIds` | src/context/WishlistContext.tsx:87 | with distinct ids the count equals the number of different ids held |
| `Wishlist.OudNoirScenario` | src/context/WishlistContext.tsx:33-57 | empty, add id "1", add it again, remove it: lengths 1, 1, 0; removing an unknown id from the empty list changes nothing |
| `Wishlist.WishlistStore.constructor` | src/context/WishlistContext.tsx:60 | the store starts empty, valid, with no notices |
| `Wishlist.WishlistStore.IsInWishlist` | src/context/WishlistContext.tsx:81-83 | holds exactly when some held item has the id |
| `Wishlist.WishlistStore.WishlistCount` | src/context/WishlistContext.tsx:87 | the count is the number of items held, and, ids being distinct, the number of different products saved |
| `Wishlist.WishlistStore.AddToWishlist` | src/context/WishlistContext.tsx:63-69 | the new list equals the reducer's ADD of the same item in every case, so the guard agrees with the reducer; a notice is logged only when the id was absent; ids stay distinct |
| `Wishlist.WishlistStore.RemoveFromWishlist` | src/context/WishlistContext.tsx:71-74 | the new list is the reducer's REMOVE; the id is no longer a member; a notice is logged whether or not the id was present |
| `Wishlist.WishlistStore.ClearWishlist` | src/context/WishlistContext.tsx:76-79 | the list is empty, the count is 0, no id is a member, and a notice is logged |
| `Products.FilteredProducts` | src/pages/Products.tsx:52-54 | `'All'` returns the whole catalogue in order; any other category returns exactly the products of that family, as a subsequence of the catalogue |
| `Products.DisplayedCount` | src/pages/Products.tsx:211 | the displayed count is at most the catalogue size and equals it for `'All'` |
| `Products.CatalogueIdsDistinct` | src/pages/Products.tsx:14-21 | the six catalogue ids are pairwise distinct |
| `Products.FilterCountsFamily` | src/pages/Products.tsx:52-54 | a family filter has as many entries as the list has products of that family |
| `Products.CatalogueInFamilies` | src/pages/Products.tsx:14-21 | every perfume in the catalogue belongs to one of the four family buttons |
| `Products.CatalogueFamilies` | src/pages/Products.tsx:14-21 | the catalogue holds two Woody, two Floral, one Fresh and one Earthwy perfume |
| `Products.DisplayedFamily` | src/pages/Products.tsx:211 | under a family button the displayed count is the number of catalogue perfumes of that family |
| `Products.FamilyCountsAddUp` | src/pages/Products.tsx:168 | when every perfume has one of the four families, the four family counts add up to the number of perfumes |
| `Products.FamiliesPartitionCatalogue` | src/pages/Products.tsx:52-54 | for any catalogue whose perfumes all have one of the four families, the four family filters together show as many perfumes as `'All'` |
| `Products.ToWishlistItem` | src/pages/Products.tsx:36-44 | definition of the wishlist entry; its fields are stated by `HandleWishlistToggle` |
| `Products.HandleWishlistToggle` | src/pages/Products.tsx:28-49 | membership of the product id flips; a saved product is removed by filter and the store logs its removal notice; an unsaved one is appended with the same id, name, price and image, brand "Premium Brand" and in stock, and the store logs an added notice with the product name |
| `Register.StoredUsers` | src/pages/Register.tsx:114-125 | the stored users list when `perfume_users` holds one; the empty list otherwise, parse failures included |
| `Register.UserExists` | src/pages/Register.tsx:63-66 | holds exactly when some stored user's e-mail or user name equals the form's, ignoring case |
| `Register.Validate` | src/pages/Register.tsx:46-71 | first failure wins, in the order missing field, password mismatch, terms not agreed, duplicate user; no error exactly when all four pass |
| `Register.SplitOnSpace` | src/pages/Register.tsx:81-82 | `split(' ')` yields at least one piece and no piece contains a space |
| `Register.JoinSplit` | src/pages/Register.tsx:81-82 | joining the pieces with single spaces gives back the user name |
| `Register.SplitJoin` | src/pages/Register.tsx:81-82 | splitting a join of space-free pieces gives back the pieces |
| `Register.SplitWord` | src/pages/Register.tsx:81 | a space-free prefix becomes part of the first piece |
| `Register.OneWordName` | src/pages/Register.tsx:81-82 | a name without a space is all first name, with an empty last name |
| `Register.NameParts` | src/pages/Register.tsx:81-82 | "First Last ..." gives first name First and last name Last, whatever follows a further space |
| `Register.NamesFromPieces` | src/pages/Register.tsx:81-82 | when the split has two or more pieces and the first is non-empty, the names are the first two pieces |
| `Register.LeadingSpaceName` | src/pages/Register.tsx:81 | when the first piece is empty the whole user name becomes the first name |
| `Register.FirstName` | src/pages/Register.tsx:81 | definition; its properties are stated by `OneWordName`, `NameParts`, `NamesFromPieces` and `LeadingSpaceName` |
| `Register.LastName` | src/pages/Register.tsx:82 | definition; its properties are stated by `OneWordName`, `NameParts` and `NamesFromPieces` |
| `Register.NewUser` | src/pages/Register.tsx:79-88 | the stored record carries the form's e-mail, user name and password, no demo password, and the split names |
| `Register.ErrorMessage` | src/pages/Register.tsx:46-69 | definition of the toast text of each failed check; `HandleSubmit` states it is the toast shown for that failure |
| `Register.HandleSubmit` | src/pages/Register.tsx:42-111 | on the first failed check it returns that error with its toast text and storage is unchanged; on success the new user is appended at the end of the stored users list, earlier users unchanged, and becomes the current user with the logged-in flag set, and the success toast is returned |
| `Register.CountTrue` | src/pages/Register.tsx:127-134 | a count of satisfied criteria never exceeds the number of criteria |
| `Register.PasswordStrength` | src/pages/Register.tsx:127-134 | strength is the number of criteria met (length at least 8, an A-Z, a digit, a non-alphanumeric), so 0..4; 4 exactly when all hold, 0 exactly when none does |
| `Register.StrengthLabel` | src/pages/Register.tsx:304 | the label is `'None'` exactly for strength 0 and `strengthText[strength-1]` otherwise |
| `Register.StrengthBars` | src/pages/Register.tsx:308-314 | definition of which bars are coloured; its properties are stated by `BarsFilled` |
| `Register.BarsFilled` | src/pages/Register.tsx:308-314 | exactly `strength` of the four bars are filled, the leftmost ones |
| `Register.HandleSocialRegister` | src/pages/Register.tsx:32-36 | exactly one of facebook/twitter is set: the chosen platform |
| `Login.AllUsers` | src/pages/Login.tsx:25-44 | the stored users list if present; else the stored current user as a one-element list; else empty; a garbled users list gives empty |
| `Login.FirstWithEmail` | src/pages/Login.tsx:49 | returns the first user whose e-mail equals the query ignoring case; none exactly when no user matches |
| `Login.FindUserByEmail` | src/pages/Login.tsx:47-50 | a found user is one of the loaded users and matches ignoring case; nothing is found only when no loaded user matches |
| `Login.ValidatePassword` | src/pages/Login.tsx:53-57 | the user's own password is always accepted; without a demo password it is the only one accepted |
| `Login.RememberStep` | src/pages/Login.tsx:93-99 | with remember-me both `rememberMe` and `rememberedEmail` are written; otherwise both are removed; no other key changes |
| `Login.RememberedEmail` | src/pages/Login.tsx:119-126 | the form is pre-filled exactly when a non-empty text is stored under `rememberedEmail`, and then with that text |
| `Login.RememberRoundTrip` | src/pages/Login.tsx:93-99 | after a sign-in with remember-me the same e-mail is pre-filled next time; without it nothing is |
| `Login.HandleSubmit` | src/pages/Login.tsx:59-116 | an empty field is refused before any request or write; a failed request or non-OK reply writes nothing and reports the server's message or the fallback text; an OK reply writes token, user and flag, then applies the remember-me step |
| `Login.FirstWithEmailAppended` | src/pages/Login.tsx:49 | when no earlier user matches, the lookup finds the appended matching user |
| `Login.RegisteredUserSignsIn` | src/pages/Register.tsx:91-92 | after a successful registration the lookup by the new e-mail finds the new user, and the password check accepts exactly the registered password |
| `Profile.ActionLabel` | src/pages/Profile.tsx:62-65 | each of delivered, shipped and processing has its own label; every other status is "Order Placed" |
| `Profile.StatusLabel` | src/pages/Profile.tsx:67-69 | delivered gives "Delivered", cancelled gives "Cancelled", anything else "In Progress" |
| `Profile.Describe` | src/pages/Profile.tsx:61-71 | an activity entry carries the order id, the date or "Recently", and the two labels |
| `Profile.LoadUserStats` | src/pages/Profile.tsx:45-80 | total is the order count; delivered is at most the total and plus the undelivered count equals it; loyalty points are 100 per order, 50 per delivered order and 10 per wishlist item; the activity list has min(4, orders) entries describing the first orders in order |
| `Profile.NewOrderPoints` | src/pages/Profile.tsx:58 | one more order earns 150 points when delivered and 100 otherwise |
| `Profile.IndexOf` | src/pages/Profile.tsx:115 | the first position of a character, or none exactly when it does not occur |
| `Profile.IsValidEmail` | src/pages/Profile.tsx:115-116 | definition of the e-mail check on characters; its properties are stated by `EmailCheckMatchesPattern` |
| `Profile.IsValidPhone` | src/pages/Profile.tsx:122 | definition of the phone check on characters; its properties are stated by `PhoneCheckMatchesPattern` |
| `Profile.EmailCheckMatchesPattern` | src/pages/Profile.tsx:115-116 | the character-level e-mail check accepts exactly the strings the pattern `^[^\s@]+@[^\s@]+\.[^\s@]+$` accepts |
| `Profile.EmailCheckSound` | src/pages/Profile.tsx:115-116 | every string the character-level check accepts has the pattern's shape, with its `@` at the first `@` |
| `Profile.EmailCheckComplete` | src/pages/Profile.tsx:115-116 | every string of the pattern's shape passes the character-level check |
| `Profile.PhoneCheckMatchesPattern` | src/pages/Profile.tsx:122 | the character-level phone check accepts exactly the strings the pattern `^[\+]?[0-9\s\-\(\)]+$` accepts |
| `Profile.ProfileError` | src/pages/Profile.tsx:113-125 | an e-mail the pattern rejects is reported first; then a non-empty phone the pattern rejects; no error exactly when both pass, an empty phone included |
| `Profile.PasswordChangeError` | src/pages/Profile.tsx:134-143 | a mismatch is reported before length; a matching password under 6 characters is rejected; no error exactly when they match and the length is at least 6 |
| `Profile.Flip` | src/pages/Profile.tsx:177-182 | flips the visibility of the chosen field and leaves the other two |
| `Profile.FlipTwice` | src/pages/Profile.tsx:177-182 | flipping a field twice restores the toggles |
| `Profile.ProfilePage.constructor` | src/pages/Profile.tsx:8-40 | the page starts showing the loaded user, not editing, with empty password fields all hidden |
| `Profile.ProfilePage.HandleSaveChanges` | src/pages/Profile.tsx:113-132 | a rejected profile changes neither the page nor storage; an accepted one is stored as the current user, becomes the shown user and ends editing |
| `Profile.ProfilePage.HandlePasswordChange` | src/pages/Profile.tsx:134-157 | a rejected change alters nothing; an accepted one empties all three fields, closes the form and hides every field |
| `Profile.ProfilePage.HandleCancelEdit` | src/pages/Profile.tsx:97-111 | drops the edits, closes both forms, empties the password fields and hides all three |
| `Profile.ProfilePage.TogglePasswordVisibility` | src/pages/Profile.tsx:177-182 | flips the chosen field only; nothing else on the page changes |
| `Settings.ToggleNotification` | src/pages/Settings.tsx:151 | negates the chosen notification key; every other key, both preferences and two-factor are unchanged |
| `Settings.ToggleTwoFactor` | src/pages/Settings.tsx:284 | negates `twoFactorAuth` only |
| `Settings.SelectPreference` | src/pages/Settings.tsx:365-368 | sets the chosen preference to the value; the other preference and all switches are unchanged |
| `Settings.ToggleTwiceRestores` | src/pages/Settings.tsx:151 | pressing a switch twice restores the settings |
| `Settings.PasswordChangeError` | src/pages/Settings.tsx:39-47 | a mismatch is reported before length; a matching password under 8 characters is rejected; no error exactly when they match and the length is at least 8 |
| `Settings.PasswordRulesDiffer` | src/pages/Settings.tsx:44-47 | a matching 6- or 7-character password passes the profile page's rule and fails this one; whatever this page accepts the profile page accepts |
| `Settings.SettingsPage.constructor` | src/pages/Settings.tsx:10-29 | the page starts with the initial settings, empty password fields and no update running |
| `Settings.SettingsPage.ToggleNotificationSwitch` | src/pages/Settings.tsx:151 | the settings become the toggled record; the password form is untouched |
| `Settings.SettingsPage.ToggleTwoFactorSwitch` | src/pages/Settings.tsx:284 | the settings become the record with two-factor negated; the password form is untouched |
| `Settings.SettingsPage.ChoosePreference` | src/pages/Settings.tsx:365-368 | the settings become the record with that preference set; the password form is untouched |
| `Settings.SettingsPage.CanUpdatePassword` | src/pages/Settings.tsx:258 | definition of when the update button is enabled; `HandlePasswordChange` and `FinishPasswordUpdate` state that it is disabled while an update runs and after one |
| `Settings.SettingsPage.HandlePasswordChange` | src/pages/Settings.tsx:39-49 | returns the check's error and changes nothing on failure; on success the update starts, which disables the button |
| `Settings.SettingsPage.FinishPasswordUpdate` | src/pages/Settings.tsx:50-54 | the update ends with all three fields reset to empty, so the button is disabled; the settings are unchanged |

## Left out

- The remote sign-in call (src/pages/Login.tsx:70-81) is network I/O. `Login.HandleSubmit` takes it as a function parameter and models only the response. A body that is not JSON counts as a failed request. The response is assumed to carry the `data` object read for the welcome name.
- JSON parsing is abstracted. A stored value of the wrong shape is treated as a parse failure, for example a single user under `perfume_users`. The source would return such a value as is, and a later `.some` or `.find` on it would throw.
- `Date.now()` and `toLocaleDateString` are out: the new user's id and join date are parameters of `Register.HandleSubmit`.
- `setTimeout` delays, `navigate`, `window.location.reload`, loading flags, `console` output and the registration handler's `catch` branch are out. The settings password update is split into a start step and a finish step in place of its timer.
- Toasts are out, except as values: the wishlist store logs them in a ghost list, and the pages return the message text. The extra toasts raised by the products page's own toggle are not logged.
- Presentation is out: JSX, animation variants, CSS class choice, the icon choice of `getStatusIcon`, and the settings page's show/hide buttons.
- Handlers outside this model: the profile page's `handleEditClick`, `handleInputChange` and `handleLogout`; the settings page's `handleSaveSettings` and input handlers; the registration page's `handleChange`.
- Reading a user's orders and saved wishlist from storage is out: `Profile.LoadUserStats` takes the orders and the wishlist length as values.
- `src/App.tsx`, `src/pages/Wishlist.tsx` and the cart context are not part of this model. There are no cart quantity semantics.
- `useWishlist` throwing outside its provider, and memoization by reference identity, are React plumbing and are out.
- Product image addresses are abbreviated. Prices are integers, and `toFixed` formatting is out.
- `\s` and `toLowerCase` are ASCII only. Full Unicode whitespace and case mapping are not modelled.
- `Login.RememberedEmail`: the mount effect also ticks the remember-me box when it pre-fills the e-mail. The model returns only the e-mail; the box is ticked exactly when the result is present. A value under `rememberedEmail` that is not `Text` (one no page writes) is not pre-filled, where the source would pre-fill any non-empty string.
- `Settings.PasswordChangeError`, `Profile.PasswordChangeError` and `Register.PasswordStrength`: password length is the number of characters (Unicode scalar values). The source's `.length` counts UTF-16 code units, so a character outside the Basic Multilingual Plane counts twice there. For example, four emoji make a length of 8 for the source and 4 in the model.
- `Wishlist.WishlistStore`: its methods always read the current `items`. The provider's callbacks read the `state.items` of the last render, so two calls in one event before a re-render would both see the older list. No page shown makes two such calls in one event.
