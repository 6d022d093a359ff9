# Club management: permission, ranking and ledger rules in Dafny

This project models the rule-bearing core of a club-management web application. Members earn
points for recorded contributions, register for activities, and are ranked on a leaderboard.
Officers record contributions and manage roles. The model covers these parts:

- the role rank table and the role-change permission of the role-management panel;
- the contribution form's crediting table, its points suggestions, and its submit guard and reset;
- the client store's officer predicates, its fetch actions, and `createActivity` and
  `createContribution` as transitions over an abstract backend;
- the leaderboard's stable sort, ranks, contribution counts, podium split, total and highest points;
- the activity panel's registration flag, capacity test, statistics and register/unregister toggle;
- the mapping from backend errors to user-facing messages.

Everything is pure: immutable datatypes and total functions. The hosted backend is a value
(`Store.Backend`), and the outcome of each network call is a parameter: success, or the error
the backend reports.

Modules, one per source file, plus shared helpers:

| module | file | models |
|---|---|---|
| `Club` | club.dfy | profiles, roles, contributions, activities, participants, backend errors |
| `RoleManagement` | role_management.dfy | src/components/RoleManagement.jsx |
| `ContributionForm` | contribution_form.dfy | src/components/ContributionForm.jsx |
| `Store` | store.dfy | src/store/useStore.js |
| `Errors` | errors.dfy | `handleSupabaseError` in src/lib/supabase.js |
| `Leaderboard` | leaderboard.dfy | src/components/Leaderboard.jsx |
| `ActivityRegistration` | activity_registration.dfy | src/components/ActivityRegistration.jsx |
| `Permissions` | permissions.dfy | how the three permission rules relate |
| `Ordering` | ordering.dfy | the latest-first order of the store's date-ordered queries |
| `Seqs`, `Text`, `Wrappers` | seqs.dfy, text.dfy, wrappers.dfy | `filter`, counts, `toLowerCase`, `includes`, Option/Result |

Facts about the code that shape the model:

- The rank table holds president 5, vice_president 4, treasurer 3, senior_executive 2 and
  member 1. There is no admin role; every other string ranks 0.
- An actor may grant roles up to and including its own rank, not only strictly lower ones.
- No modelled code derives a level from points, and none limits when a contribution may be
  edited or deleted.
- When the points increment fails after a contribution is inserted, the error is ignored and
  the call reports success.
- `createContribution` checks nothing about roles; only the form's crediting table does.
- Stored roles are `Club.StoredRole`: a role that some stored string produces, so `Other`
  never wraps one of the five known names.

Two behaviours of the code are worth knowing:

- The dashboard calls `createActivity(data)` and `createContribution(data)` without the user
  id. The rows they create carry no `created_by` or `recorded_by`
  (`Store.DashboardCallsRecordNoCreator`). The model keeps the user id as an explicit
  `Option` parameter.
- `createContribution` never throws: it resolves to `{data: null, error}` instead. So the
  contribution form's `handleSubmit` treats a failed creation as a success, and resets and
  closes. In the model this is `submitThrows == false`.
- `createActivity` puts the new activity at the head of the store's list, whatever its date.
  The list is back in date order only after the next `fetchActivities`
  (`Store.NewActivityShownFirstUntilRefetch`).
- `handleRegistration` treats any falsy `error` as success, the empty string included.

## Model

| member | source | states |
|---|---|---|
| Club.NameOfParse | src/components/RoleManagement.jsx:16-56 | reading any stored role string gives a valid role whose stored name is that string again |
| Club.ParseOfName | src/components/RoleManagement.jsx:16-56 | a valid role survives being stored as its string and read back |
| RoleManagement.Rank | src/components/RoleManagement.jsx:50-56 | ranks lie in 0..5; rank 0 exactly for roles outside the table; rank 5 exactly for president |
| RoleManagement.RankIsStrictOnKnownRoles | src/components/RoleManagement.jsx:50-56 | two known roles have the same rank only if they are the same role, so the table is a strict order |
| RoleManagement.UnlistedRoleRanksZero | src/components/RoleManagement.jsx:62-64 | "admin" and the empty string rank 0 |
| RoleManagement.CanChangeRole | src/components/RoleManagement.jsx:58-75 | allowed exactly when both users are present, the actor strictly outranks the target, the new role ranks no higher than the actor, and only a president grants president |
| RoleManagement.NoChangeOfPresidentOrPeer | src/components/RoleManagement.jsx:72-73 | nobody may change a president or a user holding the actor's own role |
| RoleManagement.PresidentAssignsAnyRole | src/components/RoleManagement.jsx:62-73 | a president may give any role to any non-president |
| RoleManagement.UnrankedActorChangesNoKnownRole | src/components/RoleManagement.jsx:62-73 | an actor of rank 0 can change no user holding a known role |
| RoleManagement.VicePresidentGrantsOwnRole | src/components/RoleManagement.jsx:66-73 | a vice president may make a treasurer vice president, but never president |
| RoleManagement.FilteredUsers | src/components/RoleManagement.jsx:110-114 | keeps exactly the users whose username or full name contains the search term, ignoring case |
| Seqs.FilterKeepsOrder | src/components/RoleManagement.jsx:110-114 | filtering keeps list order: the kept elements of two joined lists are those of the first followed by those of the second |
| RoleManagement.EmptySearchKeepsAll | src/components/RoleManagement.jsx:110-114 | an empty search term keeps every user, in order |
| RoleManagement.ManageableUsers | src/components/RoleManagement.jsx:116-122 | never lists the current user; lists exactly the matching users the current user strictly outranks |
| RoleManagement.ManageableIffSomeChangeAllowed | src/components/RoleManagement.jsx:116-122 | a matching other user is listed iff the actor may make them a member, and is listed whenever any role change on them is allowed |
| RoleManagement.HandleRoleUpdate | src/components/RoleManagement.jsx:77-91 | issues `onUpdateRole(id, role)` iff a user and a role are selected and the change is allowed; a completed call clears the selection and a rejected one keeps it |
| RoleManagement.RequestedChangesAreAllowed | src/components/RoleManagement.jsx:78-83 | every role change the panel requests is by a present actor, on a different user of strictly lower rank, and grants president only when the actor is president |
| ContributionForm.EligibleUsers | src/components/ContributionForm.jsx:29-64 | lists exactly the users other than the current one whose role the current role's table entry admits |
| ContributionForm.RefreshEligible | src/components/ContributionForm.jsx:24-67 | with no current user the previous list stays; otherwise the list is the eligible users |
| ContributionForm.PresidentCreditsAllButSelf | src/components/ContributionForm.jsx:30-33 | a president may credit a user iff it is not themself |
| ContributionForm.TreasurerCreditsVicePresident | src/components/ContributionForm.jsx:44-53 | a treasurer may credit a vice president, never a president or another treasurer |
| ContributionForm.NonOfficerCreditsNobody | src/components/ContributionForm.jsx:62-64 | members and unknown roles get an empty eligible list |
| ContributionForm.PointsSuggestion | src/components/ContributionForm.jsx:101-113 | the table's value for a listed type and 10 otherwise, always between 10 and 50 |
| ContributionForm.ChangeType | src/components/ContributionForm.jsx:115-121 | sets the type and its suggested points and leaves member, activity and description unchanged |
| ContributionForm.DefaultFormIsConsistent | src/components/ContributionForm.jsx:12-18 | the initial form's 10 points are the suggestion for its own type, participation |
| ContributionForm.HandleSubmit | src/components/ContributionForm.jsx:69-99 | submits iff member and description are filled, stamping the date; resets to the default form and closes iff the submission did not throw; otherwise keeps the form |
| ContributionForm.ResetFormBlocksResubmit | src/components/ContributionForm.jsx:84-91 | after a successful submission the form is blank, so submitting it again sends nothing |
| Permissions.OfficersAreTheCreditors | src/store/useStore.js:25-43 | the store's officer roles are exactly the roles that may credit somebody, and exactly the roles of rank 2 or more |
| Permissions.EligibleOnlyForOfficers | src/components/ContributionForm.jsx:29-64 | a signed-in user with a nonempty eligible list passes `canCreateContribution` |
| Permissions.CreditFollowsRankBelowTreasurer | src/components/ContributionForm.jsx:35-60 | a vice president or senior executive credits exactly the known roles it strictly outranks |
| Permissions.CreditAndManageDiffer | src/components/ContributionForm.jsx:44-53 | the crediting table and the rank rule differ both ways: treasurer→vice president and president→president credit but cannot manage; vice president→unknown role manages but cannot credit |
| Permissions.CreditImpliesManageOutsideExceptions | src/components/ContributionForm.jsx:29-64 | outside presidents and the treasurer→vice-president case, every credit is one the actor could also make as a role change |
| Store.CanCreateActivity | src/store/useStore.js:25-33 | true iff a profile is loaded and its role ranks 2 or more |
| Store.CanCreateContribution | src/store/useStore.js:35-43 | the same test as `canCreateActivity`: never true for a member or an unknown role |
| Store.FindUser | src/store/useStore.js:194-195 | returns the first user with the id when there is one, and reports none exactly when no user has it |
| Store.FetchProfile | src/store/useStore.js:46-73 | the profile becomes the row with that id, or null on any error or a missing row (PGRST116); the store and the return value agree |
| Store.FetchUsers | src/store/useStore.js:76-95 | success loads every profile, highest points first; any failure empties the list and returns []; nothing else changes |
| Store.FetchActivities | src/store/useStore.js:97-121 | success loads every activity, latest date first; any failure empties the list and returns []; nothing else changes |
| Store.FetchContributions | src/store/useStore.js:123-149 | success loads every contribution, latest creation time first; any failure empties the list and returns []; nothing else changes |
| Store.CreateActivity | src/store/useStore.js:151-187 | on success stores the row with `created_by`, prepends it to the store's list and closes the form; on failure changes nothing and returns the mapped message |
| Store.IncrementPoints | src/store/useStore.js:219-225 | adds the delta to the points of the profiles with that id and leaves every other field and profile unchanged |
| Store.RecordInserted | src/store/useStore.js:218-238 | after the insert: points added unless the increment failed, users refetched highest points first (emptied if that fails), row prepended, form closed |
| Store.CreateContribution | src/store/useStore.js:189-249 | an unknown target or a failed insert changes nothing and returns an error; otherwise the row carries the caller's fields and `recorded_by`, and the call succeeds |
| Store.TargetNotFoundShown | src/store/useStore.js:243-247 | the missing-target error reaches the user as "Target user not found" |
| Store.ContributionMovesOnlyTargetPoints | src/store/useStore.js:219-233 | after a recorded contribution the target gains exactly its points and every other profile is unchanged |
| Store.FailedIncrementIsSwallowed | src/store/useStore.js:227-242 | a failed increment still records the contribution and reports success, with points unchanged |
| Store.NoRoleCheckInStore | src/store/useStore.js:189-216 | the signed-in profile's role has no effect on the result or on the backend |
| Store.DashboardCallsRecordNoCreator | src/components/Dashboard.jsx:63-69 | the dashboard's calls, which omit the user id, create rows with no recorder and no creator |
| Store.CreatesKeepListsInSync | src/store/useStore.js:173-176 | if the store's activity and contribution lists hold the same rows as the backend tables, they still do after either create action; a successful refetch leaves every profile in the store's users, highest points first |
| Store.NewActivityShownFirstUntilRefetch | src/store/useStore.js:108 | an activity dated before the stored one is listed first after creation, and second after the next fetch |
| Ordering.NoLaterTotal | src/store/useStore.js:108 | any two date strings are comparable |
| Ordering.NoLaterTransitive | src/store/useStore.js:108 | the date order is transitive |
| Ordering.FirstDifferenceDecides | src/store/useStore.js:108 | two date strings are ordered by their first differing character |
| Ordering.InsertByKeyKeepsOrder | src/store/useStore.js:108 | inserting into a latest-first list keeps it latest-first |
| Ordering.LatestFirstBy | src/store/useStore.js:108 | a descending order by a date column: a permutation of the rows, latest first |
| Errors.ErrorMessage | src/lib/supabase.js:26-42 | the message is never empty and is one of the four fixed texts or the error's own message |
| Errors.CodelessMessagePassesThrough | src/lib/supabase.js:37-41 | an error without a code whose message lacks "J" is shown as its own message |
| Errors.CodesDecideFirst | src/lib/supabase.js:29-35 | PGRST301 means permission denied and 23505 a duplicate, whatever the message |
| Errors.JwtAfterCodes | src/lib/supabase.js:29-39 | a message mentioning JWT means session expired only when neither code matched |
| Errors.FallbackToOwnMessage | src/lib/supabase.js:41 | otherwise the error's message is shown, or the generic text when it is empty |
| Errors.OwnMessageShownOnlyWithoutCode | src/lib/supabase.js:29-41 | a non-fixed message is shown verbatim exactly when no code matched, it lacks "JWT" and it is nonempty |
| Leaderboard.Insert | src/components/Leaderboard.jsx:74-75 | inserting adds exactly one copy of the user to the list |
| Leaderboard.InsertKeepsDescending | src/components/Leaderboard.jsx:74-75 | inserting into a highest-first list keeps it highest-first |
| Leaderboard.SortByPoints | src/components/Leaderboard.jsx:74-75 | the sorted list is a permutation of the users with non-increasing points and the same total; it is stable: for every points value, the users holding it appear in input order |
| Leaderboard.InsertKeepsEqualsInOrder | src/components/Leaderboard.jsx:74-75 | inserting a user puts it ahead of its equals and leaves their order alone |
| Leaderboard.ContributionCount | src/components/Leaderboard.jsx:67-71 | the number of contributions crediting the user: the length of the filtered list, and 0 exactly when none credits them |
| Leaderboard.Rankings | src/components/Leaderboard.jsx:73-80 | one row per user, a permutation of the users, highest points first, users with equal points in input order, row i ranked i+1, each with its contribution count |
| Leaderboard.TopThree | src/components/Leaderboard.jsx:83 | the first min(3, n) rows |
| Leaderboard.RestOfUsers | src/components/Leaderboard.jsx:84 | the n − 3 rows after the podium, or none |
| Leaderboard.PodiumSplit | src/components/Leaderboard.jsx:83-84 | podium followed by the rest is the whole leaderboard, and nobody below the podium has more points than anyone on it |
| Leaderboard.TotalPoints | src/components/Leaderboard.jsx:87 | 0 with no users; with no negative balances, never negative and at least any one user's points |
| Leaderboard.InsertAddsPoints | src/components/Leaderboard.jsx:87 | inserting a user adds its points to the total, so sorting keeps `totalPoints` |
| Leaderboard.HighestPoints | src/components/Leaderboard.jsx:89 | 0 with no users; otherwise some user's points, and no user has more |
| ActivityRegistration.StatusCount | src/components/ActivityRegistration.jsx:326-341 | at most the number of participants, and 0 exactly when nobody has that status |
| ActivityRegistration.StatusCountsBounded | src/components/ActivityRegistration.jsx:326-341 | registered, attended and absent counts add up to at most the number of participants |
| ActivityRegistration.IsRegistered | src/components/ActivityRegistration.jsx:52-54 | true iff there is a current user and some participant row carries their id |
| ActivityRegistration.IsActivityFull | src/components/ActivityRegistration.jsx:125-128 | full iff a nonzero maximum is set and the registered-status count reaches it |
| ActivityRegistration.NoMaximumNeverFull | src/components/ActivityRegistration.jsx:125-126 | a null or 0 maximum never makes the activity full |
| ActivityRegistration.CountAppendOther | src/components/ActivityRegistration.jsx:127 | a participant whose status is not "registered" does not change the registered count |
| ActivityRegistration.OnlyRegisteredCount | src/components/ActivityRegistration.jsx:125-128 | adding an attended, absent or other-status participant never changes fullness |
| ActivityRegistration.CanRegister | src/components/ActivityRegistration.jsx:130-133 | true iff there is a current user who is not registered and the activity is not full; the separate `max_participants === null` test adds nothing, because an activity without a maximum is never full |
| ActivityRegistration.FetchParticipants | src/components/ActivityRegistration.jsx:34-61 | loaded rows replace the list and re-derive the flag; a failed load changes nothing |
| ActivityRegistration.HandleRegistration | src/components/ActivityRegistration.jsx:63-89 | unregisters a registered user and registers any other; only a resolution whose error is falsy (none, or the empty string) flips the flag, followed by a reload; no user or no activity means no call |
| ActivityRegistration.RegisteredUserCannotRegisterAgain | src/components/ActivityRegistration.jsx:68-82 | after a successful registration whose reload shows the user's row, the user is registered and cannot register again |

## Left out

- React rendering, JSX, icons, colours and labels (`getRoleColor`, `getLevelColor`,
  `getRoleDisplayName`, `getRankIcon`, `getRankBackground`): presentation only.
- The backend client, authentication, realtime settings, and the bodies of `.from(...)` and
  `.rpc(...)`: network I/O. Each call is a parameter that says whether it succeeded. The
  `increment_user_points` function runs on the server and its body is not part of this model.
  `Store.IncrementPoints` assumes it adds `points_to_add` to the matching profile. It also
  leaves `level` as it was, because whatever the server does to `level` is not visible.
- Level derivation: nothing in the modelled code computes a level from points.
- `averagePoints` on the leaderboard: a floating-point division with `Math.round`, and NaN for
  an empty list.
- AnalyticsDashboard.jsx, AuthForm.jsx, App.jsx and ActivityForm.jsx, other than the
  `max_participants` value, which is modelled directly as `Option<int>`.
- The dashboard's rank badge: it repeats the leaderboard sort and sorts the store array in place.
- Dates and clocks: `isUpcoming`, the ISO timestamp stamped on a new contribution, and the
  submission date. They are opaque string parameters.
- Logging, toasts, `alert`, loading flags and the order of asynchronous steps. Each action is
  one atomic transition.
- The store's plain setters (`setProfile`, `setActiveTab`, `setShowActivityForm`,
  `setShowContributionForm`): each assigns one field.
- The 1–100 points bound: it is only an HTML input attribute, so points are any integer.
- `parseInt` of the points field: the form's points are modelled as an already-parsed integer,
  so non-numeric input (NaN) is not modelled.
- RoleManagement.FilteredUsers: `toLowerCase` is modelled on ASCII letters only. Other
  characters are compared unchanged rather than with full Unicode case mapping.
- RoleManagement.Rank: a role string that names a built-in property of JavaScript objects
  (such as "constructor") would look up a function rather than a number. Such strings rank 0
  here, as any unlisted string does. The same holds for `ContributionForm.PointsSuggestion`
  on such a type name.
- RoleManagement.ManageableUsers: the source reads `currentUser.id` without a null check, so
  the model takes a present current user.
- Store.FetchUsers: the database's order among profiles with equal points is not modelled.
  Profiles with equal points come back in their stored order.
- Store.FetchActivities: activities with the same date, like contributions with the same
  creation time in `Store.FetchContributions`, come back in an order the model picks. Dates
  and timestamps are compared as fixed-width ISO 8601 strings, character by character.
- Store.FetchProfile: `.single()` on several rows with the same id is not modelled. Profile ids
  are the table's key, and the first row with the id is returned.
