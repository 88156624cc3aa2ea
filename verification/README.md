# DiveDex client rules in Dafny

DiveDex is a mobile app for logging marine-creature sightings. Users keep a
wishlist, unlock achievements and compete on a points leaderboard. Every
table lives in a hosted backend. The app's own logic is the set of pure rules
its screens apply to the rows they read. This project models those rules as
Dafny functions over sequences, sets and maps, and proves what they promise.

Modelling conventions:

- Every backend read is an input `Reply<T>`: either the rows, or a failure
  carrying the error message.
- Every write the app would send is part of the returned value: the unlock
  rows, the sighting row, the update payload, or the new wishlist list.
- A write's own outcome is an input: `None` when it succeeded, or the error
  message it failed with.
- `error.message || 'fallback'` is `Replies.ErrorText`.

Modules, one per source file of the core:

- `AchievementRules` (lib/achievements.ts) is the unlock evaluator. It takes
  the distinct-creature and distinct-location counts, skips unlocked entries,
  and matches each code against the threshold/creature chain. It returns the
  rows to insert and the count.
- `Leaderboard` (app/leaderboard.tsx) keeps one accumulator per profile, as
  `Map.set` does: last value, first position. It folds the sightings in with
  first-seen de-duplication per user. It then stable-sorts by points and
  discoveries and assigns ranks 1..N.
- `ProfileShare` (app/profile/share.tsx) computes the discovered and favourite
  counts, the points, the rarest creature and the three most completed
  categories, plus `getRank` and `getRankColor`.
- `ShareProfile` (app/share-profile.tsx) covers:
  - its own statistics and rank tiers;
  - the badges;
  - the display name;
  - the share message, with a parser that reads the statistics back.
- `AchievementsScreen` (app/achievements.tsx) computes the unlock status of
  each catalog entry, the points and unlock count, and the four fixed groups.
- `Wishlist` (context/WishlistContext.tsx) models refresh, add, remove and
  membership as transitions on the list of creature ids.
- `PasswordRules`, `Signup` and `ChangePassword` (app/auth/signup.tsx,
  app/account/change-password.tsx) model the password form checks and what
  the submit does after them.
- `ChangeEmail` (app/account/change-email.tsx) models the required fields and
  the address pattern `^[^\s@]+@[^\s@]+\.[^\s@]+$`. The pattern is written
  once as a grammar and once as a scan, and the two are proved equal. The
  module also models the submit.
- `SightingForm`, `SightingAdd` and `SightingEdit` (app/sighting/add.tsx,
  app/sighting/edit.tsx) model the location and date guards, the inserted row,
  the loaded form and the update payload.
- `SightingsList` (app/sightings.tsx) models the sighting-to-creature join and
  the card colour per category.

Shared helper modules:

- `Replies`: Option and Reply.
- `Seqs`: `[...new Set(xs)]` as `Dedup`, plus sums and filters.
- `StableSort`: `Array.prototype.sort` as a stable insertion sort.
- `JsText`: the `\s` class, `trim`, UTF-16 `length`, and integer rendering in
  template literals.
- `CreatureStats`: the `.in('id', ids)` creature lookup and its point sum.
- `Records`: the rows of lib/types.ts.

## Model

| member | source | states |
|---|---|---|
| Replies.ErrorText | app/leaderboard.tsx:100 | An empty error message falls back to the screen's default text; a non-empty one is shown as is; with a non-empty fallback the shown text is never empty |
| Seqs.Dedup | lib/achievements.ts:14 | Spreading a Set keeps each element once: the result has no duplicates, holds exactly the elements of the input and is never longer |
| Seqs.DistinctCount | lib/achievements.ts:15 | The length of the de-duplicated list is the size of the input's element set, zero only for an empty input |
| Seqs.DedupAppend | lib/achievements.ts:14-15 | Appending an element already present changes nothing; a new one is added at the end, so elements keep their first-seen order |
| StableSort.Sort | app/leaderboard.tsx:91 | For a comparator that is a total preorder, the sort returns a permutation of its input that is ordered by the comparator |
| StableSort.SortStable | app/leaderboard.tsx:91 | The sort is stable: the elements the comparator ranks level with any given element come out in the same order as they went in |
| StableSort.Stable | app/leaderboard.tsx:91 | For every element of the input, the elements ranked level with it keep their input order in the sorted result |
| StableSort.InsertStable | app/leaderboard.tsx:91 | Inserting one element into a sorted list puts it behind every element ranked level with it |
| JsText.Trim | app/sighting/add.tsx:87 | The trimmed text is empty exactly when every character is ECMAScript white space; otherwise it is the slice starting at the first non-space character, neither end is white space, and only white space was cut on either side |
| JsText.Utf16Length | app/auth/signup.tsx:24 | String length counts UTF-16 code units: between one and two per character, and exactly one per character inside the Basic Multilingual Plane. The length is the character count plus the number of characters outside that plane, so each of those counts exactly twice |
| JsText.IntToStringRoundTrip | app/share-profile.tsx:92 | A number rendered into the message reads back as the same integer, negatives included |
| AchievementRules.SightingsCount | lib/achievements.ts:14-15 | The sightings count is the number of distinct creature ids, so repeat sightings of a creature do not raise it |
| AchievementRules.LocationsCount | lib/achievements.ts:18-19 | The locations count is the number of distinct location strings under exact equality |
| AchievementRules.ChainMatchesRules | lib/achievements.ts:45-93 | The if/else chain qualifies a code exactly when the code is in the fixed rule table (six creature thresholds, three location thresholds, four specific creatures) and its rule holds; an unknown code never qualifies |
| AchievementRules.Queue | lib/achievements.ts:41-94 | Only entries that are not unlocked and qualify are queued, and every such entry is queued; the queue keeps catalog order (a subsequence of the catalog ids) and is no longer than the catalog |
| AchievementRules.CheckAndUpdate | lib/achievements.ts:97-115 | A failed read inserts nothing and returns 0; otherwise one unlock row per queued id goes to the insert, all for this user, and the result is the queue length, or 0 when the insert fails |
| AchievementRules.QueuedIffChain | lib/achievements.ts:42 | With distinct catalog ids, an entry is queued if and only if it is not already unlocked and its code qualifies |
| AchievementRules.QueuedIff | lib/achievements.ts:41-94 | With distinct catalog ids, an entry is queued if and only if it is not unlocked and its code's rule in the table holds for the user's counts and sightings |
| AchievementRules.FirstCatch | lib/achievements.ts:45-47 | first_catch is queued if and only if it is not unlocked and the user has at least one sighting |
| AchievementRules.Idempotent | lib/achievements.ts:41-94 | Evaluating again with the queued ids added to the unlocked set queues nothing |
| AchievementRules.Monotone | lib/achievements.ts:45-93 | A code that qualifies for some sightings still qualifies when more sightings are added |
| AchievementRules.RepeatSighting | lib/achievements.ts:14-19 | A sighting of an already seen creature at an already seen location changes neither count nor the queue |
| AchievementRules.QueueRespectsFacts | lib/achievements.ts:78-93 | For fixed counts the queue depends on the sightings only through which creatures were spotted |
| AchievementRules.CaseSensitiveLocations | lib/achievements.ts:70 | "Maui" and "maui" are two locations, so two such sightings already qualify world_traveler |
| Leaderboard.Put | app/leaderboard.tsx:63-69 | Setting a key keeps keys unique: an existing key keeps its position, a new key is appended |
| Leaderboard.InitStatsNames | app/leaderboard.tsx:62-70 | Each initial accumulator carries the name and avatar of the last profile with its key, since a later `Map.set` of the same key overwrites the value |
| Leaderboard.PutOrigin | app/leaderboard.tsx:63-69 | After setting a key, every entry is either the new value or an earlier entry of a different key |
| Leaderboard.BoardNames | app/leaderboard.tsx:82-90 | Every ranked row shows the name and avatar of the last profile with its id |
| Leaderboard.InitStats | app/leaderboard.tsx:62-70 | Every initial accumulator has a unique key and starts at 0 points with nothing discovered |
| Leaderboard.InitStatsKeys | app/leaderboard.tsx:62-70 | The accumulator keys are the profile ids, de-duplicated in first-seen order |
| Leaderboard.InitStatsDistinct | app/leaderboard.tsx:62-70 | With distinct profile ids there is one fresh accumulator per profile, in profile order |
| Leaderboard.Tally | app/leaderboard.tsx:73-79 | Folding the sightings in keeps every accumulator's key, name and avatar in place |
| Leaderboard.TallyDiscovered | app/leaderboard.tsx:73-79 | After the fold a user's discovered set is the set of creatures in that user's sightings |
| Leaderboard.TallyPoints | app/leaderboard.tsx:73-79 | When each sighting carries its creature's catalog points, a user's points are the sum over the user's distinct creatures in first-seen order |
| Leaderboard.Unranked | app/leaderboard.tsx:82-90 | The board rows are the accumulators in the same order, each with the accumulator's key, name, avatar and points, and the size of its discovered set |
| Leaderboard.BeforeIsTotalPreorder | app/leaderboard.tsx:91 | The points-then-discovered comparator is total and transitive, so the sort is well defined |
| Leaderboard.Standings | app/leaderboard.tsx:91 | The sorted rows are a permutation of the accumulators ordered by points, then discoveries, both descending. Users level on both keep their profile order |
| Leaderboard.Build | app/leaderboard.tsx:59-95 | The board has one row per distinct profile id and every profile appears; ranks are exactly 1..N by position; rows are ordered by points then discoveries; discovered is the number of distinct creatures the user sighted; each row shows the name and avatar of the last profile with its id |
| Leaderboard.FetchLeaderboard | app/leaderboard.tsx:33-100 | A board is shown exactly when both reads succeed; the first failed read's message, or the default text, is shown otherwise |
| Leaderboard.BoardPoints | app/leaderboard.tsx:76 | Every board row's points are the catalog points summed over that user's distinct creatures, so repeat sightings add nothing |
| Leaderboard.BoardPermutation | app/leaderboard.tsx:82-95 | Ranks aside, the board is a permutation of the accumulators |
| Leaderboard.IgnoredSighting | app/leaderboard.tsx:74-75 | A sighting by a user without a profile, or of a creature the user already discovered, leaves the board unchanged |
| Leaderboard.HigherPointsRankFirst | app/leaderboard.tsx:91-95 | A user with more points always gets a smaller rank number |
| Leaderboard.InactiveUser | app/leaderboard.tsx:67-68 | A profile without sightings stays on the board with 0 points and 0 discoveries |
| Leaderboard.RepeatSightingsScenario | app/leaderboard.tsx:75-77 | Three sightings of a 10-point creature and one of a 20-point creature give 2 discoveries and 30 points |
| CreatureStats.Found | app/profile/share.tsx:102-105 | The lookup returns exactly the catalog rows whose id is among the sighted ids |
| CreatureStats.FoundBySet | app/profile/share.tsx:87 | The lookup depends only on which ids were sighted, so de-duplicating the ids first changes nothing |
| CreatureStats.RepeatIdAddsNothing | app/share-profile.tsx:42 | Sighting a creature again finds no new row |
| CreatureStats.MissingIdAddsNothing | app/profile/share.tsx:109 | A sighted id without a catalog row adds no row, hence no points |
| CreatureStats.NewIdAddsItsPoints | app/share-profile.tsx:62 | With distinct catalog ids, a newly sighted catalog creature adds exactly its own points |
| ProfileShare.HighestIndex | app/profile/share.tsx:113-115 | The reduce picks a creature with maximal points and, among ties, the last one |
| ProfileShare.RarestOf | app/profile/share.tsx:112-121 | The rarest creature is absent exactly when nothing was found; otherwise it is a found creature with maximal points, and no later found creature has as many points, so ties go to the last one |
| ProfileShare.CategoryCounts | app/profile/share.tsx:131-138 | There is one figure per category, in the order the categories were read. Each carries that category's name. Its count is the number of found creatures in the category, and its total is the number of catalog creatures in it |
| ProfileShare.CountWithinTotal | app/profile/share.tsx:131-150 | No category's discovered count exceeds its catalog total |
| ProfileShare.CompletionPreorder | app/profile/share.tsx:155 | On categories with a positive total, comparing completion ratios by cross-multiplication is total and transitive |
| ProfileShare.TopCategories | app/profile/share.tsx:153-162 | Only categories with a positive total are kept, at most three; they are ordered by completion and every category left out is no more complete than any kept one. Among equally complete categories, the ones kept are the first in read order |
| ProfileShare.FetchUserStats | app/profile/share.tsx:71-179 | Stats are produced exactly when every needed read succeeds, and every failed read shows its own message or the default 'Failed to load stats': discovered is the distinct sighted count and favorites the wishlist row count. With no sightings, points are 0 and there is neither a rarest creature nor a category. Otherwise points are the catalog sum over the sighted creatures; the rarest is the found creature with the most points, the last one on ties; the categories are the three most complete of the per-category figures, all with a positive total |
| ProfileShare.Rank | app/profile/share.tsx:264-271 | getRank always returns one of the six rank names |
| ProfileShare.RankColor | app/profile/share.tsx:274-281 | getRankColor always returns one of the six rank colours |
| ProfileShare.RankByLevel | app/profile/share.tsx:264-281 | The name and the colour are the entries at the number of thresholds (100, 500, 1500, 3000, 5000) reached, so the two ladders agree |
| ProfileShare.RankMonotone | app/profile/share.tsx:264-271 | More points never give a lower rank |
| ShareProfile.TierLevel | app/share-profile.tsx:66-75 | The tier level counts exactly the thresholds 250, 500, 750 and 1000 that the points reach |
| ShareProfile.Tier | app/share-profile.tsx:66-75 | The tier name is the one at the tier level |
| ShareProfile.TierMonotone | app/share-profile.tsx:66-75 | More points never give a lower tier |
| ShareProfile.FetchUserStats | app/share-profile.tsx:27-88 | A failed read leaves the shown statistics unchanged. With no sightings: 0 discovered, 0 points, the wishlist count, and the lowest tier. Otherwise: the distinct sighted count, the wishlist count, the catalog points of the sighted creatures, and the tier of those points |
| ShareProfile.DisplayName | app/share-profile.tsx:124 | A non-empty full name is shown, otherwise "Sea Explorer" |
| ShareProfile.Badges | app/share-profile.tsx:150-173 | Each badge shows exactly when its condition holds: any discovery, 100 points, 5 discoveries, 3 favourites |
| ShareProfile.ShareMessageRoundTrip | app/share-profile.tsx:92 | The share message carries rank, discoveries, favourites and points in that order, and reads back to the same statistics |
| ShareProfile.TierMessagesRoundTrip | app/share-profile.tsx:92 | Every statistics value the screen computes shares without loss |
| AchievementsScreen.UnlockedAt | app/achievements.tsx:75-77 | An id has an unlock time exactly when it has an unlock row, and the time is that of its last row |
| AchievementsScreen.StatusOf | app/achievements.tsx:85-95 | An entry is unlocked exactly when its id has an unlock row, and it has an unlock time exactly when it is unlocked |
| AchievementsScreen.Statuses | app/achievements.tsx:84-102 | One status per catalog entry, in catalog order |
| AchievementsScreen.UnlockedCount | app/achievements.tsx:88 | The unlocked count is the number of catalog positions whose status is unlocked, so it never exceeds the catalog size |
| AchievementsScreen.Bucket | app/achievements.tsx:97-100 | A bucket holds exactly the entries of its category, in catalog order |
| AchievementsScreen.Groups | app/achievements.tsx:108-133 | There are always four groups, beginner, collection, location and rare, each holding exactly the entries of its category (possibly none) |
| AchievementsScreen.Ungrouped | app/achievements.tsx:108-133 | The entries outside the four groups are exactly those of any other category |
| AchievementsScreen.FetchAchievements | app/achievements.tsx:53-138 | The screen loads exactly when both reads succeed; it then shows four groups of catalog entries of the group's category, each flagged by its unlock row, and every catalog entry of a group's category appears in that group. Total points are the summed points of the unlocked entries, and the unlock count is the number of catalog entries with an unlock row |
| AchievementsScreen.DuplicateUnlockCountsOnce | app/achievements.tsx:75-88 | A second unlock row for an unlocked achievement changes neither points nor count |
| AchievementsScreen.FlagsDecide | app/achievements.tsx:84-89 | Points and count depend only on each entry's flag and points |
| AchievementsScreen.CountIsUnlockedCatalogIds | app/achievements.tsx:85-88 | With distinct catalog ids, the count is the number of catalog ids with an unlock row; rows for other achievements are not counted |
| AchievementsScreen.CountFlagsUnlockRows | app/achievements.tsx:85-88 | The unlock count is the number of catalog positions whose id has an unlock row, duplicates in the catalog included |
| AchievementsScreen.GroupsOfCatalog | app/achievements.tsx:108-133 | A group holds only catalog entries of its category, each flagged unlocked exactly when it has an unlock row, and every catalog entry of that category is in it |
| AchievementsScreen.PointsSplitByGroup | app/achievements.tsx:84-89 | The total is the sum over the four groups plus the entries of other categories, which are not displayed but still add their points |
| Wishlist.Refresh | context/WishlistContext.tsx:32-59 | Signed out, the list empties; a failed read keeps the list and sets the error; a successful read replaces the list and clears the error |
| Wishlist.Add | context/WishlistContext.tsx:61-97 | Signed out, only the error changes. An id already present leaves the list as is. A failed insert keeps the list and sets the error. Otherwise the id is appended. Nothing is lost, and a duplicate-free list stays duplicate-free |
| Wishlist.Remove | context/WishlistContext.tsx:99-127 | Signed out or on a failed delete the list is kept and the error set; otherwise the id is gone and every other id stays, in order, with as many copies as before; a duplicate-free list stays duplicate-free |
| Wishlist.ExceptMultiset | context/WishlistContext.tsx:120 | Filtering out an id removes every copy of it and keeps every copy of every other id |
| Wishlist.AddThenRemove | context/WishlistContext.tsx:90-120 | Adding a new id and then removing it restores the list |
| Wishlist.RemoveAbsent | context/WishlistContext.tsx:120 | Removing an absent id leaves the list unchanged |
| Wishlist.UnsentInsertIrrelevant | context/WishlistContext.tsx:72-74 | When the id is already present, or nobody is signed in, no insert is sent, so its outcome does not matter |
| Wishlist.RunKeepsNoDup | context/WishlistContext.tsx:61-131 | Any sequence of adds, removes and refreshes keeps the list free of duplicates, provided every list the backend returns is |
| PasswordRules.FirstFailure | app/account/change-password.tsx:22-39 | A form passes exactly when no field is empty, the confirmation matches and the password has at least 6 code units; an empty field is reported first, then a mismatch, then the length |
| PasswordRules.LengthCountsCodeUnits | app/auth/signup.tsx:24 | Three emoji already make a six-unit password |
| Signup.HandleSignup | app/auth/signup.tsx:13-39 | signUp is called exactly when the form is valid, which is exactly when no validation error is left; an empty field is reported as such |
| Signup.ShortPasswordRefused | app/auth/signup.tsx:24-27 | A matching but short password is refused with the length message |
| Signup.MismatchBeforeLength | app/auth/signup.tsx:19-22 | A mismatching confirmation is reported before the length |
| ChangePassword.Validate | app/account/change-password.tsx:22-39 | The form is valid exactly when all three fields are filled, the new passwords match and are at least 6 units long; each failing check shows its own message, in order |
| ChangePassword.Submit | app/account/change-password.tsx:41-85 | Signed out or invalid forms only set the error; a failed sign-in reports a wrong current password; a failed update shows its message; success turns on only when sign-in and update both succeed, turns off when either fails, and is left alone when nothing was attempted; the form changes only by being cleared on success |
| ChangePassword.SuccessResets | app/account/change-password.tsx:70-73 | A successful change empties all three fields and reports success |
| ChangePassword.SignedOutIgnoresForm | app/account/change-password.tsx:42-45 | Signed out, the same error shows whatever the form holds |
| ChangeEmail.ValidEmailMatchesPattern | app/account/change-email.tsx:25-26 | The single-scan check accepts exactly the addresses the pattern matches |
| ChangeEmail.Validate | app/account/change-email.tsx:19-32 | Empty fields are reported first, then a malformed address; the form is valid exactly when the password is filled and the address matches the pattern |
| ChangeEmail.Submit | app/account/change-email.tsx:34-80 | Signed out or invalid forms only set the error; a failed sign-in reports a wrong password; a failed email or profile update shows its message; only when all succeed are the fields cleared and success reported |
| ChangeEmail.AcceptsAddress | app/account/change-email.tsx:25 | An ordinary address matches the pattern |
| ChangeEmail.RefusesMissingDot | app/account/change-email.tsx:25 | A domain without a dot is refused |
| ChangeEmail.RefusesSecondAt | app/account/change-email.tsx:25 | An address with a second '@' is refused |
| ChangeEmail.RefusesSpace | app/account/change-email.tsx:25 | An address containing white space is refused |
| SightingForm.Check | app/sighting/add.tsx:87-95 | Fields pass exactly when the location is not all white space and the date is filled; the location is checked first |
| SightingForm.BlankLocationRefused | app/sighting/add.tsx:87-90 | A location of only spaces and tabs is refused although it is not empty |
| SightingAdd.ImageUrl | app/sighting/add.tsx:101-104 | An image URL is stored exactly when a non-empty URI was chosen, and it is that URI unchanged |
| SightingAdd.Save | app/sighting/add.tsx:81-146 | Signed out, nothing is written. Invalid fields are refused with the location message before the date message. Otherwise exactly one row is written: this user, this creature, the fields as typed, the chosen image. The save succeeds unless the insert fails |
| SightingAdd.LocationStoredUntrimmed | app/sighting/add.tsx:115-126 | The trim only decides blankness: the location is stored with its surrounding spaces |
| SightingEdit.Load | app/sighting/edit.tsx:30-54 | A loaded row fills the form with its location, date and image, and its notes or "" when null; a failed load only sets the error |
| SightingEdit.Save | app/sighting/edit.tsx:106-163 | Nothing happens without a user and a loaded row. Invalid fields are refused with the shared guard's message. Otherwise the update carries the form's four fields and is scoped to the route id and this user. It succeeds unless the update fails, and a failed update shows its message or 'Failed to update sighting'; the update is sent exactly when there is a user, a loaded row and valid fields |
| SightingEdit.Apply | app/sighting/edit.tsx:134-143 | Only the row with the update's id and owner changes, and only its location, date, notes and image |
| SightingEdit.LoadThenSaveKeepsRow | app/sighting/edit.tsx:43-47 | Saving an untouched loaded row writes it back as it was, except that a null note becomes ""; other users' rows never change |
| SightingsList.RequestedIds | app/sightings.tsx:49 | The ids asked for are duplicate-free and are exactly the creature ids of the sightings |
| SightingsList.Index | app/sightings.tsx:59-63 | The map's keys are the ids of the returned creatures, and each key maps to a returned creature with that id |
| SightingsList.IndexLastWins | app/sightings.tsx:61-63 | For an id returned more than once the map keeps the last row |
| SightingsList.FetchSightings | app/sightings.tsx:27-78 | The list loads exactly when the sightings read succeeds and, if there are sightings, the catalog read too; a failed read shows its message. No sightings gives an empty list without a creature lookup. Otherwise the list has the sightings in their order, each with a catalog creature of its id, or none when the catalog has none |
| SightingsList.UniqueCatalogJoin | app/sightings.tsx:60-68 | With distinct catalog ids, each sighting is shown with exactly the catalog row of its creature |
| SightingsList.BackgroundColor | app/sightings.tsx:94-111 | The six listed category ids get their own colour and every other id the default blue |

## Left out

- Backend, authentication and storage I/O are not modelled. Every read is an
  input and every write an output. context/AuthContext.tsx, lib/supabase.ts
  and app/index.tsx are not part of this model. This includes what
  `signUp`, `updateUserPassword`, `updateUserEmail` and `updateUserProfile`
  do beyond succeeding or failing.
- Clock and locale values are left out: the `unlocked_at` timestamp of new
  unlocks, the default date of a new sighting, and date formatting. They
  depend on the device clock and locale.
- Loading flags, alerts, navigation, timers (the delayed sign-out and back
  navigation), the image picker and camera, view capture and the share
  sheet are UI effects with no rule in them.
- Stale-state races between overlapping async calls (for example two quick
  wishlist adds reading the same list) are not modelled. Each call is one
  atomic transition.
- Query results that are null without an error (`data` null) are not
  modelled. A successful read always carries a list.
- Sorting in the backend (`.order(...)`) is not modelled: the rows arrive
  in the order the backend returns them.
- The `.in('id', ids)` lookup is modelled as a filter of the creature table
  in table order. The backend's row order for it is not specified.
- ProfileShare.FetchUserStats: each category's total is modelled as the
  number of rows of that category in the creature catalog reply. The actual
  value is the backend's exact count. A failed count query is modelled as one
  input, the first failure's message.
- The category percentages of app/profile/share.tsx (`getCategoryProgress`)
  are floating point and only displayed, so they are left out. The
  completion sort compares ratios by cross-multiplication. For positive
  totals this gives the same order as the floating-point division, except for
  ratios too close to be told apart as doubles.
- Category ids that are also `Object.prototype` property names (such as
  `constructor`) would behave differently in the plain-object buckets of
  app/achievements.tsx. Such ids are not modelled.
- ShareProfile.Badges: the contract states which badges show, not their
  on-screen order. The order is the order of the four conditions.
- The avatar initial (`charAt(0).toUpperCase()`) and the icon lookup
  `getIconComponent` are not modelled. Unicode case mapping is outside the
  model, and the icon lookup is rendering only.
- app/auth/login.tsx, app/account/edit-profile.tsx and app/wishlist.tsx are
  not modelled. Their only logic is a two-field guard, an avatar choice, and
  the same removal filter already modelled in `Wishlist.Remove`.
- lib/types.ts has no behaviour. Its rows appear as the `Records`
  datatypes, without creation timestamps.
- Numbers are unbounded integers. The points sums never come near the range
  where JavaScript numbers lose precision.
- The creature id of the shark_whisperer rule in lib/achievements.ts is the
  same string as the Sharks category id in app/sightings.tsx. The model keeps
  both as written. Which of them is intended cannot be read from the source.
