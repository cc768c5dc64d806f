# Love-blossom UI: client-side logic in Dafny

This project models the client-side logic of a matrimonial/social web front end.
It covers four things:

- the profile editor dialog: its form state, the disabilities/disorders tag editor, per-field updates, loading a stored profile into the form, and the row it saves;
- the display rules of the community directory (`Home`), the member's own profile page (`Profile`) and the header bar (`ProfileHeader`);
- the `getInitials` avatar fallback, which appears in three copies with different defaults;
- the bottom navigation bar's active-tab rule.

Everything else in the application is a call to the hosted backend (queries, inserts, updates, sign-in and sign-out) or static markup.

The store is not modelled. The model takes what the pages receive from it (the profile rows, the session's user, the loading flags) as parameters. It returns what the pages ask of it as values: a redirect, a fetch, or an update/insert request.

Modules, one per source file plus shared helpers:

| module | file | models |
|---|---|---|
| `Wrappers` | wrappers.dfy | `Option`, standing for `null`/`undefined` |
| `Text` | text.dfy | `trim`, `split(' ')`, `toUpperCase`, `substring`/`slice(0, n)`, and the initials rule |
| `Profiles` | profiles.dfy | the `profiles` row, the session user, and the `\|\| ''` and `\|\| null` conversions |
| `EditProfile` | edit_profile_modal.dfy | `EditProfileModal.tsx`: class `EditProfileModal` holding `formData`, `newDisability` and `loading` |
| `Home` | home.dfy | `Home.tsx` |
| `ProfilePage` | profile_page.dfy | `Profile.tsx` |
| `ProfileHeader` | profile_header.dfy | `ProfileHeader.tsx` |
| `BottomNavigation` | bottom_navigation.dfy | `BottomNavigation.tsx` |

Stored rows are `Profiles.ProfileRow`, and `None` stands for SQL `NULL`. The editor saves `EditProfile.ProfileData`, which holds the nine columns the form writes plus `user_id`.

Some contracts are phrased against independent reference definitions rather than the computation:

- `Text.WordStarts` defines the initials without splitting: every non-space character at the start or after a space.
- `EditProfile.Normalised` describes the rows that survive a load/save round trip.
- `EditProfile.SaveRequestFor` is the store call that `BeginSubmit` is proved to make.

## Model

| member | source | states |
|---|---|---|
| Text.Trim | src/components/EditProfileModal.tsx:136 | `trim()` returns the slice of the input that starts after its leading whitespace. Everything removed on either side is whitespace, and a non-empty result neither starts nor ends with whitespace. |
| Text.TrimEmptyIff | src/components/EditProfileModal.tsx:136 | The trimmed input is empty, and so the add is refused, exactly when the input is all whitespace. |
| Text.TrimIdempotent | src/components/EditProfileModal.tsx:136-139 | Trimming an already-trimmed string changes nothing. |
| Text.TrimSurrounded | src/components/EditProfileModal.tsx:136-139 | A trimmed, non-empty string with whitespace added on either side trims back to itself. So a tag added by `addDisability`, re-typed with surrounding spaces, is found by `includes` and refused. |
| EditProfile.RetypedTagRefused | src/components/EditProfileModal.tsx:135-142 | After a tag was accepted, typing it again with any surrounding whitespace is refused and leaves the list unchanged. |
| Text.Split | src/pages/Home.tsx:65 | `split(' ')` returns one more segment than the name has spaces. No segment contains a space, and joining the segments with single spaces gives the name back. |
| Text.SplitJoin | src/pages/Home.tsx:65 | Splitting a space-joined list of space-free segments returns exactly those segments. |
| Text.FirstCharsOfSplit | src/pages/Home.tsx:65 | The first characters of the segments are exactly the non-space characters that start the name or follow a space. Empty segments from repeated spaces contribute nothing. |
| Text.InitialsOf | src/pages/Home.tsx:65 | The initials are the upper-cased word starts of the name, and never longer than the name. |
| Text.InitialsOfWords | src/pages/Home.tsx:65 | For non-empty words joined by single spaces, the initials are the upper-cased first letter of each word, in order. |
| Text.SpacesHaveNoInitials | src/pages/Home.tsx:64-65 | A name made only of spaces is truthy, yet it yields empty initials rather than the fallback. |
| Text.WordStartsHaveNoSpace | src/pages/Home.tsx:65 | The initials never contain a space. |
| Text.WordStartsLength | src/pages/Home.tsx:65 | There are no more initials than characters in the name. |
| Text.Upper | src/pages/Home.tsx:65 | `toUpperCase` keeps the length and maps every character on its own. |
| Text.Prefix | src/pages/Home.tsx:174 | `slice(0, n)`/`substring(0, n)` returns a prefix of length `min(n, length)`. |
| Profiles.OrElse | src/components/EditProfileModal.tsx:57-64 | `column \|\| fallback` is the column when it is present and non-empty, otherwise the fallback. |
| Profiles.NullIfEmpty | src/components/EditProfileModal.tsx:80-87 | `s \|\| null` is `NULL` exactly for `''`, and `\|\| ''` turns it back into `s`. |
| Profiles.NullIfEmptyOfOrElse | src/components/EditProfileModal.tsx:56-89 | `(c \|\| '') \|\| null` gives back `c` exactly when `c` is not `''`. |
| Profiles.RowIf | src/pages/Home.tsx:131-166 | A conditional row is rendered exactly when its column is truthy, and it then shows that column. |
| EditProfile.SetField | src/components/EditProfileModal.tsx:128-133 | The named field takes the value. Every other text field and the tag list are unchanged. |
| EditProfile.SetFieldLaws | src/components/EditProfileModal.tsx:128-133 | Re-setting a field to its current value is a no-op. Of two updates to the same field, the last one wins. |
| EditProfile.SetFieldCommutes | src/components/EditProfileModal.tsx:128-133 | Updates to two different fields can be applied in either order. |
| EditProfile.LoadForm | src/components/EditProfileModal.tsx:56-66 | Each text field is its column, with `NULL` or `''` becoming `''`. The tag list is the stored list, with `NULL` becoming `[]`. |
| EditProfile.BuildProfileData | src/components/EditProfileModal.tsx:78-89 | `user_id` is the caller's id. A column is non-null exactly when its field is non-empty, and the tags are non-null exactly when the list is non-empty. The row is normalised, and loading it back gives the form unchanged. |
| EditProfile.LoadThenSubmit | src/components/EditProfileModal.tsx:56-89 | Loading a row and saving it unchanged writes back the same row if and only if the row stores no `''` and no empty tag list. |
| EditProfile.SaveRequestFor | src/components/EditProfileModal.tsx:74-98 | There is no store call without a user. With a user, the row is built from the form for that user's id. It is an update matched on that id when a profile exists, and an insert otherwise. |
| EditProfile.DialogTitle | src/components/EditProfileModal.tsx:157 | The title is "Edit Profile" with a stored profile and "Complete Profile" without one. |
| EditProfile.TitleMatchesSave | src/components/EditProfileModal.tsx:157 | The title says "Edit Profile" exactly when saving updates rather than inserts. |
| EditProfile.AddTag | src/components/EditProfileModal.tsx:135-142 | The trimmed input is appended when it is non-empty and not yet present, and the list is unchanged otherwise. A duplicate-free list stays duplicate-free, and no empty tag is ever added. |
| EditProfile.RemoveAll | src/components/EditProfileModal.tsx:145-150 | No entry equal to the removed tag remains, and nothing new appears. |
| EditProfile.RemoveAbsent | src/components/EditProfileModal.tsx:148 | Removing a tag that is not in the list is the identity. |
| EditProfile.RemoveAllCounts | src/components/EditProfileModal.tsx:148 | Exactly the copies of the tag are dropped: every other value keeps its number of occurrences. |
| EditProfile.RemoveAllConcat | src/components/EditProfileModal.tsx:148 | Filtering distributes over concatenation, so the remaining tags keep their relative order. |
| EditProfile.RemoveAllKeepsNoDuplicates | src/components/EditProfileModal.tsx:145-150 | Removing a tag keeps a duplicate-free list duplicate-free. |
| EditProfile.RemoveUndoesAdd | src/components/EditProfileModal.tsx:135-150 | After an accepted add, removing the same tag restores the original list. |
| EditProfile.EditProfileModal.constructor | src/components/EditProfileModal.tsx:39-52 | Initial state: every field `''`, no tags, no pending tag, not loading. |
| EditProfile.EditProfileModal.SaveButtonLabel | src/components/EditProfileModal.tsx:290-291 | The button reads "Saving..." exactly while loading, and "Save Profile" otherwise. |
| EditProfile.EditProfileModal.SetNewDisability | src/components/EditProfileModal.tsx:254-256 | The pending tag input becomes the typed value. |
| EditProfile.EditProfileModal.HandleInputChange | src/components/EditProfileModal.tsx:128-133 | Exactly the named field becomes the value. Every other field, the tags, the pending input and `loading` are unchanged. |
| EditProfile.EditProfileModal.AddDisability | src/components/EditProfileModal.tsx:135-143 | On acceptance, the trimmed input is appended, the rest of the form is unchanged, and the pending input is cleared. On rejection, the form and the pending input stay as typed. The list stays duplicate-free. |
| EditProfile.EditProfileModal.RemoveDisability | src/components/EditProfileModal.tsx:145-150 | The tags become the filtered list and the other fields are unchanged. The removed tag is absent afterwards. The form is unchanged when the tag was absent, and a duplicate-free list stays so. |
| EditProfile.EditProfileModal.LoadProfile | src/components/EditProfileModal.tsx:54-70 | A stored profile replaces the whole form. Without one, a signed-in user's email (or `''`) replaces only the email field. Otherwise nothing changes. |
| EditProfile.EditProfileModal.BeginSubmit | src/components/EditProfileModal.tsx:72-98 | The returned request is `SaveRequestFor` of the current form. `loading` is set exactly when there is a user, so the button then reads "Saving...". The method is a no-op without a user. |
| EditProfile.EditProfileModal.EndSubmit | src/components/EditProfileModal.tsx:100-125 | `loading` is cleared on every outcome, so the button reads "Save Profile" again. The parent is notified only when the save succeeded. |
| Home.Effect | src/pages/Home.tsx:32-41 | A redirect to `/` is requested exactly when auth is settled and there is no user. Profiles are fetched, excluding the caller's id, exactly when there is a user. |
| Home.GetInitials | src/pages/Home.tsx:63-66 | `'?'` for a null or empty name, otherwise the upper-cased word starts. |
| Home.ShortId | src/pages/Home.tsx:128 | The ID line shows a prefix of the id of length `min(8, length)`. |
| Home.Handle | src/pages/Home.tsx:122 | The badge shows the username when it is non-empty, otherwise `user_` plus the short id. It is never empty. |
| Home.HandleFallbackShape | src/pages/Home.tsx:122 | The fallback handle is `user_` followed by a prefix of the id, of length `5 + min(8, length)`. |
| Home.SupportNeeds | src/pages/Home.tsx:170-186 | The section is shown for a non-null, non-empty list. It shows the first `min(3, n)` tags in order, and the `+N` badge appears exactly when `n > 3`. Shown tags plus the overflow count equal `n`, and shown tags plus the rest rebuild the list. |
| Home.Card | src/pages/Home.tsx:104-188 | A card shows the avatar address or `''`, the initials, the name or "Anonymous", `@` plus the handle, `ID: ` plus the short id plus `...`, the physical-condition badge and the gender, address, qualification and phone rows, each exactly when truthy, and the support-needs section. |
| Home.Cards | src/pages/Home.tsx:103-189 | There is one card per profile, in fetch order. |
| Home.View | src/pages/Home.tsx:68-102 | A spinner while either flag is loading. Otherwise: nothing without a user, the empty state for an empty list, else the directory with one card per profile. |
| Home.RedirectShowsNoCards | src/pages/Home.tsx:32-78 | A visitor being redirected sees only the spinner or nothing, never a card. |
| ProfilePage.Effect | src/pages/Profile.tsx:32-41 | A redirect to `/` is requested exactly when auth is settled and there is no user. The caller's own row is fetched exactly when there is a user. |
| ProfilePage.GetInitials | src/pages/Profile.tsx:83-86 | `'U'` for a null or empty name, otherwise the upper-cased word starts. |
| ProfilePage.DisplayedEmail | src/pages/Profile.tsx:119 | The profile's email when it is non-empty, otherwise the account's email. |
| ProfilePage.TagSection | src/pages/Profile.tsx:199-210 | The tag section renders exactly when the list is non-null and non-empty, and shows every tag in order. |
| ProfilePage.Content | src/pages/Profile.tsx:105-228 | The page shows the initials, the name or "Welcome!", and the same email in the header and in the card. The condition, phone, gender, address and qualification rows appear exactly when truthy. The "Complete Your Profile" prompt appears exactly when there is no profile. |
| ProfilePage.View | src/pages/Profile.tsx:71-81 | A spinner while either flag is loading. Otherwise: nothing without a user, else the content for that user. |
| ProfilePage.RedirectShowsNoContent | src/pages/Profile.tsx:32-81 | A visitor being redirected never sees the page content. |
| ProfilePage.HeadingNeverEmpty | src/pages/Profile.tsx:116 | The heading is never empty. |
| ProfilePage.PromptIffEditorInserts | src/pages/Profile.tsx:216-236 | The page passes its profile to the editor, so the prompt is shown exactly when saving the editor inserts a new row. |
| ProfileHeader.GetInitials | src/components/ProfileHeader.tsx:52-55 | `'U'` for a null or empty name, otherwise the upper-cased word starts. |
| ProfileHeader.FetchesProfile | src/components/ProfileHeader.tsx:25-29 | The profile is fetched exactly when a user is signed in. |
| ProfileHeader.FetchesIffRenders | src/components/ProfileHeader.tsx:25-62 | The header fetches a profile exactly when it renders, whatever profile it holds. |
| ProfileHeader.Render | src/components/ProfileHeader.tsx:62-91 | Nothing without a user. Otherwise: the name or "Friend" (never empty), the avatar address or `''`, and the initials with the `'U'` default. |
| ProfileHeader.BlankNameHasNoInitials | src/components/ProfileHeader.tsx:52-55 | A name of only spaces is welcomed as-is, but its avatar fallback is empty. |
| ProfileHeader.InitialsPresentForWord | src/components/ProfileHeader.tsx:52-55 | A name starting with a non-space gets a fallback whose first letter is that character upper-cased. |
| ProfileHeader.TargetsMatchTabs | src/components/ProfileHeader.tsx:68-95 | The logo and "My Profile" targets are the Home and Profile tab paths. `NavItems` has exactly one active item at each and none at `/`. |
| BottomNavigation.NavItems | src/components/BottomNavigation.tsx:9-40 | There are five items: Home, Connect, Posts, Messages, Profile, with paths `/home` … `/profile`. Each is active if and only if the pathname equals its path. |
| BottomNavigation.PathsDistinct | src/components/BottomNavigation.tsx:13-37 | The five paths are pairwise distinct. |
| BottomNavigation.ActiveItems | src/components/BottomNavigation.tsx:9-40 | At most one item is active. Exactly one is active if and only if the pathname is one of the five paths, and none otherwise, for instance on `/`. |
| BottomNavigation.ClickTarget | src/components/BottomNavigation.tsx:52 | Clicking an item navigates to that item's own path. |
| BottomNavigation.ClickHighlightsClickedItem | src/components/BottomNavigation.tsx:52 | Clicking item `i` on any page leads to the `i`-th path, where exactly item `i` is active. |

## Left out

- Backend calls are not modelled: the profile select/update/insert, `.neq('user_id', …)`, `signInWithPassword` and `signOut`. The rows, flags and user they produce are parameters. The requests the pages make are returned as values (`EffectAction`, `SaveRequest`).
- Error handling is not modelled: toasts, `console.error`, the `catch` branches of the fetches and `window.location.href`. `EndSubmit` takes the store's outcome as a boolean.
- `navigate(...)` and React effect scheduling are not modelled. A redirect or a navigation is a returned value or constant, not an effect.
- Text.Upper, Text.UpperChar: upper-case ASCII letters only. JavaScript's full Unicode case mapping, which can change the length (ß to SS), is not modelled.
- Strings are sequences of characters. The UTF-16 code-unit detail of `n[0]` (half of a surrogate pair) is not modelled.
- EditProfile.EditProfileModal.HandleInputChange: the field is one of the eight form fields, as at every call site. A computed key outside them, which would add a new property, is not modelled.
- `handleSubmit` runs as two steps, `BeginSubmit` and `EndSubmit`. Interleavings with other events while the request is pending are not modelled. Neither is the form's submit path when the button is disabled.
- The `LoginModal`, landing-page sections, header/footer chrome and the `Connect`, `Posts` and `Messages` placeholders are static markup or backend calls with no logic of their own.
- `src/pages/Messages.tsx` is a static "coming soon" placeholder with no logic, so there is no messaging to model.
- CSS classes, icons and animations are not modelled.
- Which pages render the tab bar is not modelled. Of the modelled pages only Home draws it (`src/pages/Home.tsx:194`); the profile page draws none, so `ProfileHeader.TargetsMatchTabs` speaks of the `NavItems` list, not of a bar on screen.
