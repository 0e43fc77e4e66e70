# xdrive-admin: a verified model of the dashboard's screen logic

xdrive-admin is a React admin dashboard for a car marketplace. Most of it
is forms, dialogs and HTTP pass-throughs. This project models, in Dafny,
the pieces of it that decide something:

- the page strip under every paginated list (`Pagination`);
- which sidebar groups open for the current location, how a group is
  toggled, and where a click leads (`Sidebar`);
- the system-settings edit buffer, its dirty flag and the save payload
  (`Settings`);
- the car detail screen's image gallery, status badge, offered actions and
  action handlers (`CarDetails`, over the shared `CarTypes`);
- the car list's query-string state and its moderation dialogs
  (`CarsList`);
- the header's display name, role, initials, menu and logout
  (`AdminHeader`);
- the reset-password rules, the guard on the navigation state, and what a
  submission sends (`ResetPassword`).

`Js` holds the few JavaScript behaviours the screens lean on: `||`
defaults (an absent or empty string is falsy), `startsWith`, `trim`,
`toUpperCase`, `parseInt(_, 10)` and `Number#toString`.

React state becomes class fields. A screen's calls into code outside it
(the router's `navigate`, the `onClose` and `onMenuToggle` props, the auth
store, the data layer's mutations) are appended, with their arguments, to a
sequence field, so each method states the calls it makes and their order.
An awaited request's outcome is a `succeeds` parameter. Pure expressions in
the source are functions; the loops in `getPageNumbers`, the sidebar's
location effect and the settings load effect are methods with loop
invariants, each proved equal to a reference function about which the
properties are proved as lemmas.

## Model

| member | source | states |
|---|---|---|
| Js.Trim | src/components/Admin/AdminHeader.tsx:35 | `trim` removes white space at both ends and nothing else: the result is the stretch of the string starting at some position, everything before and after that stretch is white space, and the result neither starts nor ends with white space |
| Js.TrimTrimmed | src/components/Admin/AdminHeader.tsx:35 | a string that neither starts nor ends with white space is its own `trim` |
| Js.TrimLeadingSpace | src/components/Admin/AdminHeader.tsx:35 | `trim` drops the separating space in front of a trimmed last name |
| Js.TrimBlank | src/components/Admin/AdminHeader.tsx:35 | `trim` gives the empty string exactly when every character is white space |
| Js.ToUpper | src/components/Admin/AdminHeader.tsx:31 | upper-casing keeps the length and maps every character on its own |
| Js.NatToStringValue | src/pages/vehicles/Cars.tsx:89 | the decimal digits written for a natural number read back as that number |
| Js.ParseIntToString | src/pages/vehicles/Cars.tsx:30 | `parseInt(n.toString(), 10)` gives back exactly `n`, negative numbers included |
| Js.ParseInt | src/pages/vehicles/Cars.tsx:30 | `parseInt` is NaN exactly when no digit follows the leading white space and the optional sign |
| Js.ParseDigits | src/pages/vehicles/Cars.tsx:30 | `parseInt` of a string of decimal digits is the number they spell |
| Js.ParseNegative | src/pages/vehicles/Cars.tsx:30 | a minus sign before a run of digits negates its value |
| Js.ParseOne | src/pages/vehicles/Cars.tsx:30 | the default page text `'1'` parses as 1 |
| Pagination.PushRun | src/components/Pagination.tsx:23-25 | a push loop appends exactly the pages `lo..hi`, nothing when `lo > hi` (also lines 36-38) |
| Pagination.PageNumbers | src/components/Pagination.tsx:18-50 | the push loops build exactly the reference strip `PageList` |
| Pagination.PageList | src/components/Pagination.tsx:18-50 | the reference strip (no contract of its own; `PageNumbers` equals it and the lemmas below state its properties) |
| Pagination.Render | src/components/Pagination.tsx:14-101 | nothing is rendered exactly when `last_page <= 1`; otherwise the strip is `PageList`, previous is disabled exactly on page 1 and next exactly on the last page |
| Pagination.FewPagesListsAll | src/components/Pagination.tsx:22-26 | with at most five pages the strip is `1, 2, ..., last_page` and has no marker |
| Pagination.ManyPagesEndpoints | src/components/Pagination.tsx:27-46 | with more than five pages the strip starts with page 1 and ends with `last_page` |
| Pagination.NumbersIncreaseWithinRange | src/components/Pagination.tsx:22-46 | page numbers strictly increase and all lie in `1..last_page`, for every current page |
| Pagination.ShowsCurrentPage | src/components/Pagination.tsx:27-38 | a current page inside `1..last_page` is always in the strip |
| Pagination.MarkersAtGaps | src/components/Pagination.tsx:27-42 | every `'...'` stands between two shown pages that are not neighbours, and adjacent page buttons are consecutive pages, for every current page |
| Pagination.ManyPagesFramed | src/components/Pagination.tsx:27-46 | with more than five pages the strip is page 1, a marker iff the window starts after page 2, the window's consecutive pages, a marker iff it ends before `last - 1`, and the last page |
| Pagination.FramedMarkersAtGaps | src/components/Pagination.tsx:27-46 | in any strip of that layout whose markers sit where the window leaves gaps, every marker stands between non-neighbouring pages and adjacent buttons are consecutive pages |
| Pagination.FramedNumbers | src/components/Pagination.tsx:27-46 | in any strip of that layout with the window inside `2..last - 1`, page numbers strictly increase within `1..last` |
| Pagination.MarkerPositions | src/components/Pagination.tsx:27-42 | for a current page in range, a leading marker appears iff `max(2, current - 1) > 2` and a trailing one iff `min(last - 1, current + 1) < last - 1` |
| Pagination.OutOfRangeCurrentPage | src/components/Pagination.tsx:27-46 | a current page outside `1..last_page` (with more than five pages) collapses the strip to `1, '...', last_page` |
| Pagination.AtMostSevenEntries | src/components/Pagination.tsx:22-46 | the strip never has more than seven entries |
| Pagination.ManyPagesShowsWindow | src/components/Pagination.tsx:27-46 | with more than five pages, page `p` is shown iff it is 1, `last_page`, or within one of the current page and inside `1..last_page` |
| Pagination.CurrentPageShownOnce | src/components/Pagination.tsx:76-92 | the highlighted current-page button appears at most once |
| Pagination.ArrowsEnabledExactlyWhenTargetShown | src/components/Pagination.tsx:64-101 | for a current page in range, previous is enabled exactly when page `current - 1` is a button of the strip, and next exactly when page `current + 1` is |
| Pagination.PageShown | src/components/Pagination.tsx:18-50 | a neighbour of a current page in range is in the strip exactly when it lies in `1..last_page` |
| Pagination.PageShownInRun | src/components/Pagination.tsx:22-26 | with at most five pages, a page is in the strip exactly when it lies in `1..last_page` |
| Sidebar.IsActiveIffPrefix | src/components/Admin/AdminSidebar.tsx:171-172 | a path is active iff it is non-empty and the pathname is that path followed by anything |
| Sidebar.IsActive | src/components/Admin/AdminSidebar.tsx:171-172 | `isActive`, used for the leaf entries (line 197) and the children (line 223); `IsActiveIffPrefix` states it |
| Sidebar.ExpandsFor | src/components/Admin/AdminSidebar.tsx:155-158 | a group with some active child; `ActiveParentsMembers` states which labels it selects |
| Sidebar.ActiveParents | src/components/Admin/AdminSidebar.tsx:152-161 | the reference list of labels to expand; `ExpandedParents` equals it and the lemmas below state its properties |
| Sidebar.ExpandedParents | src/components/Admin/AdminSidebar.tsx:152-163 | the effect's `forEach` collects exactly the reference list `ActiveParents` |
| Sidebar.ActiveParentsMembers | src/components/Admin/AdminSidebar.tsx:153-161 | a label is collected iff some group with that label has a child whose path is a prefix of the pathname; leaves never are |
| Sidebar.ExpandingIndices | src/components/Admin/AdminSidebar.tsx:153-161 | the positions of the groups with an active child, each one such a group, strictly increasing |
| Sidebar.ActiveParentsAtIndices | src/components/Admin/AdminSidebar.tsx:153-161 | the collected labels are the labels at those positions, one per position |
| Sidebar.ExpandingIndicesComplete | src/components/Admin/AdminSidebar.tsx:153-161 | every group with an active child is among those positions |
| Sidebar.ActiveParentsInOrder | src/components/Admin/AdminSidebar.tsx:153-161 | the collected labels are those of the expanding groups, at strictly increasing positions of the item list, with none skipped |
| Sidebar.ActiveParentsAppend | src/components/Admin/AdminSidebar.tsx:154-161 | collecting over two item lists in turn gives the two results one after the other |
| Sidebar.NoExpandingGroup | src/components/Admin/AdminSidebar.tsx:154-161 | with no group to expand, nothing is collected |
| Sidebar.SingleExpandingGroup | src/components/Admin/AdminSidebar.tsx:154-161 | with exactly one group to expand, only its label is collected |
| Sidebar.CarPagesExpandVehicles | src/components/Admin/AdminSidebar.tsx:24-163 | on the car list and on every page under `/vehicles/cars` exactly the Vehicles group opens |
| Sidebar.SidebarShape | src/components/Admin/AdminSidebar.tsx:24-139 | the sidebar has ten entries; Management, Vehicles, Finance and Feedback are the groups, at positions 1, 2, 3 and 5 |
| Sidebar.VehiclesOpensOnCarPages | src/components/Admin/AdminSidebar.tsx:52-58 | under `/vehicles/cars` the Cars child is active, so Vehicles opens |
| Sidebar.OtherGroupsClosedOnCarPages | src/components/Admin/AdminSidebar.tsx:31-116 | under `/vehicles/cars` no child of Management, Finance or Feedback is active |
| Sidebar.OnlyVehiclesHasActiveChild | src/components/Admin/AdminSidebar.tsx:153-161 | with those three groups closed and the rest leaves, no entry but Vehicles opens |
| Sidebar.OtherSectionClosed | src/components/Admin/AdminSidebar.tsx:155-158 | a group none of whose child paths shares the pathname's second character stays closed |
| Sidebar.SidebarLabelsDistinct | src/components/Admin/AdminSidebar.tsx:24-139 | no two sidebar entries share a label |
| Sidebar.ActiveParentsNoDuplicates | src/components/Admin/AdminSidebar.tsx:152-163 | with distinct labels, the location effect never lists a group twice |
| Sidebar.Without | src/components/Admin/AdminSidebar.tsx:167 | `filter((x) => x !== label)` keeps every other label and drops that one |
| Sidebar.Toggled | src/components/Admin/AdminSidebar.tsx:165-169 | toggling flips whether the label is expanded and leaves every other label as it was |
| Sidebar.WithoutNoDuplicates | src/components/Admin/AdminSidebar.tsx:167 | filtering a duplicate-free list keeps it duplicate-free |
| Sidebar.ToggledNoDuplicates | src/components/Admin/AdminSidebar.tsx:165-169 | toggling a duplicate-free list keeps it duplicate-free |
| Sidebar.ToggleTwice | src/components/Admin/AdminSidebar.tsx:165-169 | toggling the same label twice restores which labels are expanded |
| Sidebar.SidebarState.constructor | src/components/Admin/AdminSidebar.tsx:150-163 | after mounting, the expanded groups are those the location selects, listed once each (`Valid`), and nothing has been called |
| Sidebar.SidebarState.LocationChanged | src/components/Admin/AdminSidebar.tsx:151-163 | a new pathname replaces the expanded groups with those it selects; the same pathname (the effect's only dependency) leaves them, and the user's toggles, as they were; the list has no duplicate afterwards |
| Sidebar.SidebarState.ToggleExpand | src/components/Admin/AdminSidebar.tsx:165-169 | the expanded list becomes `Toggled` of the previous one and stays free of duplicates |
| Sidebar.SidebarState.ParentClick | src/components/Admin/AdminSidebar.tsx:174-180 | a group click only toggles the group; a leaf with a path navigates there and then closes the sidebar; any other leaf does nothing |
| Sidebar.SidebarState.ChildClick | src/components/Admin/AdminSidebar.tsx:182-185 | a child with a path navigates there and then closes the sidebar; the expanded groups are untouched |
| Settings.Get | src/pages/system/Settings.tsx:27 | reading a key finds a value exactly when the record has that key |
| Settings.Put | src/pages/system/Settings.tsx:38 | an assignment adds the key to the record's keys and keeps the keys distinct |
| Settings.PutGet | src/pages/system/Settings.tsx:45 | after `{ ...prev, [key]: value }` the key reads as the new value and every other key as before |
| Settings.PutKeepsOrder | src/pages/system/Settings.tsx:45 | a new key goes at the end; an existing key keeps every entry in its place |
| Settings.KeysAt | src/pages/system/Settings.tsx:53 | a key is in the record iff some entry carries it |
| Settings.DistinctKeysAt | src/pages/system/Settings.tsx:53 | no two entries share a key, and every entry's key reads as that entry's value |
| Settings.Flatten | src/pages/system/Settings.tsx:34-36 | every setting of every group is in the flattened list, and nothing else is |
| Settings.Collect | src/pages/system/Settings.tsx:37-39 | the record built from the settings never holds a key twice |
| Settings.CollectKeys | src/pages/system/Settings.tsx:33-39 | the loaded record has exactly the keys of the loaded settings |
| Settings.CollectLastWins | src/pages/system/Settings.tsx:37-39 | each key carries the value of its last occurrence in flattened order |
| Settings.LaterDuplicateWins | src/pages/system/Settings.tsx:37-39 | of two settings with one key only the later value is kept |
| Settings.CollectStep | src/pages/system/Settings.tsx:37-39 | collecting one more setting assigns its key to its value in the record collected so far |
| Settings.InitialSettings | src/pages/system/Settings.tsx:33-39 | the `forEach` builds exactly the reference record `Collect` of the flattened groups |
| Settings.PayloadOneEntryPerKey | src/pages/system/Settings.tsx:53-56 | the payload has one `{key, value}` entry per key of the buffer, carrying the value the buffer holds |
| Settings.SettingsPage.constructor | src/pages/system/Settings.tsx:27-28 | the buffer starts empty and clean |
| Settings.SettingsPage.SettingsLoaded | src/pages/system/Settings.tsx:31-42 | a response with data replaces the buffer wholesale with the collected settings; no data leaves it; the dirty flag is untouched |
| Settings.SettingsPage.HandleChange | src/pages/system/Settings.tsx:44-47 | one key takes the new value, the buffer stays a valid record, and it is marked dirty |
| Settings.SettingsPage.HandleSave | src/pages/system/Settings.tsx:49-63 | a clean buffer sends nothing; otherwise the whole buffer is sent, and the buffer is clean afterwards exactly when the update succeeded; the Save button is disabled exactly when the buffer is clean (lines 177-179) |
| Settings.SettingsPage.SaveDisabled | src/pages/system/Settings.tsx:177-179 | the Save button's `disabled`; `HandleSave` states that a disabled save sends nothing |
| CarTypes.ToggleFeatureRequest | src/pages/vehicles/CarDetails.tsx:91-95 | a featured car is unfeatured and any other car featured, by the given id |
| CarDetails.FindIndex | src/pages/vehicles/CarDetails.tsx:54 | `findIndex` gives the first position with that id, or -1 exactly when there is none |
| CarDetails.Candidates | src/pages/vehicles/CarDetails.tsx:50-52 | the primary image, when there is one, followed by the gallery; `PrimaryImageFirst` states it |
| CarDetails.KeepFirstFrom | src/pages/vehicles/CarDetails.tsx:53-55 | the `filter` keeping first occurrences; `KeptAreFirst`, `KeptInOrder` and `KeptCoversIds` state it |
| CarDetails.AllImages | src/pages/vehicles/CarDetails.tsx:50-55 | the gallery shown; the `AllImages…` lemmas below state it |
| CarDetails.KeptAreFirst | src/pages/vehicles/CarDetails.tsx:53-55 | each kept image is the first occurrence of its id |
| CarDetails.KeptInOrder | src/pages/vehicles/CarDetails.tsx:53-55 | the kept images come in the order of their first occurrences |
| CarDetails.KeptCoversIds | src/pages/vehicles/CarDetails.tsx:53-55 | every id first seen in the filtered range is kept |
| CarDetails.AllImagesDistinctIds | src/pages/vehicles/CarDetails.tsx:50-55 | no two gallery entries share an id |
| CarDetails.AllImagesFirstOccurrences | src/pages/vehicles/CarDetails.tsx:50-55 | the entry kept for each id is its first occurrence, and the relative order of first occurrences is preserved |
| CarDetails.AllImagesCoversIds | src/pages/vehicles/CarDetails.tsx:50-55 | the primary image's id and every gallery id are shown |
| CarDetails.PrimaryImageFirst | src/pages/vehicles/CarDetails.tsx:50-52 | a primary image is always the first entry |
| CarDetails.DuplicateImageShownOnce | src/pages/vehicles/CarDetails.tsx:50-55 | two gallery images with one id show as the first of them alone |
| CarDetails.StatusLabel | src/pages/vehicles/CarDetails.tsx:161 | the badge keeps the status's length, upper-cases its first character and leaves the rest unchanged |
| CarDetails.StatusLabelIdempotent | src/pages/vehicles/CarDetails.tsx:161 | capitalising an already capitalised status changes nothing |
| CarDetails.PendingLabel | src/pages/vehicles/CarDetails.tsx:161 | the pending status shows as `Pending` |
| CarDetails.OfferedActions | src/pages/vehicles/CarDetails.tsx:310-350 | Approve and Reject are offered iff the status is `pending`; feature and delete always are |
| CarDetails.CarDetailsPage.constructor | src/pages/vehicles/CarDetails.tsx:42-44 | all three dialogs start closed and nothing has been requested |
| CarDetails.CarDetailsPage.OpenFeatureModal | src/pages/vehicles/CarDetails.tsx:334 | the feature button opens the feature dialog and changes nothing else |
| CarDetails.CarDetailsPage.HandleToggleFeature | src/pages/vehicles/CarDetails.tsx:88-100 | no route id: nothing; otherwise the toggle request for the car's featured flag, and the dialog closes only on success |
| CarDetails.CarDetailsPage.HandleDelete | src/pages/vehicles/CarDetails.tsx:59-67 | no route id: nothing; otherwise a delete request, and only on success a navigation to `/vehicles/cars` |
| CarDetails.CarDetailsPage.HandleReject | src/pages/vehicles/CarDetails.tsx:69-77 | no route id: nothing; otherwise a reject request with the reason, and the dialog closes only on success |
| CarDetails.CarDetailsPage.HandleApprove | src/pages/vehicles/CarDetails.tsx:79-86 | an approve request when there is a route id, and no other change |
| CarsList.PageParam | src/pages/vehicles/Cars.tsx:30 | without a (non-empty) `page` parameter the page is 1; otherwise it is `parseInt` of the parameter |
| CarsList.StatusParam | src/pages/vehicles/Cars.tsx:31 | the status is never empty: the parameter when non-empty, otherwise `all` |
| CarsList.SearchParam | src/pages/vehicles/Cars.tsx:32 | the search text is the parameter, or empty without one |
| CarsList.StatusFilter | src/pages/vehicles/Cars.tsx:45-49 | `all` means no status filter; any other status is passed through unchanged |
| CarsList.QueryFor | src/pages/vehicles/Cars.tsx:30-49 | the arguments of `useGetCars` under a query string; `EmptyQueryStringDefaults`, `FirstPageQuery` and `PageChangeQuery` state them |
| CarsList.ParamsFor | src/pages/vehicles/Cars.tsx:78-90 | the query string the handlers write |
| CarsList.EmptyQueryStringDefaults | src/pages/vehicles/Cars.tsx:30-49 | an empty query string asks for page 1 of every status with no search text |
| CarsList.TabFilters | src/pages/vehicles/Cars.tsx:143-150 | only the first tab, `all`, lifts the filter; every other tab filters by its own id |
| CarsList.FirstPageQuery | src/pages/vehicles/Cars.tsx:78-86 | the parameters a search or a tab change writes ask for page 1 with that status (all statuses for an empty one) and search text |
| CarsList.PageChangeQuery | src/pages/vehicles/Cars.tsx:88-90 | the parameters a page change writes ask for that very page with status (all statuses for an empty one) and search kept |
| CarsList.CarsPage.constructor | src/pages/vehicles/Cars.tsx:51-76 | the search box and the active tab start from the query string, which the active tab then matches; all dialogs are closed |
| CarsList.CarsPage.SetSearch | src/pages/vehicles/Cars.tsx:186 | typing changes only the search box |
| CarsList.CarsPage.HandleSearch | src/pages/vehicles/Cars.tsx:78-81 | the query string becomes page 1, the active tab and the search text, which the active tab then matches; nothing else changes |
| CarsList.CarsPage.HandleTabChange | src/pages/vehicles/Cars.tsx:83-86 | the tab becomes active and the query string becomes page 1, that tab and the search text |
| CarsList.CarsPage.HandlePageChange | src/pages/vehicles/Cars.tsx:88-90 | the query string becomes the new page, the active tab and the search text |
| CarsList.CarsPage.OpenDelete | src/pages/vehicles/Cars.tsx:346-348 | the delete dialog opens on that car's id |
| CarsList.CarsPage.CloseDelete | src/pages/vehicles/Cars.tsx:366 | the delete dialog closes and forgets the id |
| CarsList.CarsPage.HandleDelete | src/pages/vehicles/Cars.tsx:92-100 | no selected id: nothing; otherwise a delete request, and on success the dialog closes and forgets the id |
| CarsList.CarsPage.OpenReject | src/pages/vehicles/Cars.tsx:322-324 | the reject dialog opens on that car's id |
| CarsList.CarsPage.HandleReject | src/pages/vehicles/Cars.tsx:102-110 | no selected id: nothing; otherwise a reject request with the reason, and on success the dialog closes and forgets the id |
| CarsList.CarsPage.CloseReject | src/pages/vehicles/Cars.tsx:372 | the reject dialog closes and forgets the id, nothing else changes |
| CarsList.CarsPage.HandleApprove | src/pages/vehicles/Cars.tsx:112-118 | an approve request for the row's car and no other change |
| CarsList.CarsPage.OpenFeature | src/pages/vehicles/Cars.tsx:253-255 | the feature dialog opens on that car |
| CarsList.CarsPage.HandleToggleFeature | src/pages/vehicles/Cars.tsx:120-133 | no selected car: nothing; otherwise unfeature a featured car or feature an unfeatured one, and on success the dialog closes and forgets the car |
| CarsList.CarsPage.CloseFeature | src/pages/vehicles/Cars.tsx:378 | the feature dialog closes and forgets the car, nothing else changes |
| AdminHeader.Split | src/components/Admin/AdminHeader.tsx:28 | `split(' ')` gives at least one piece and no piece holds a space |
| AdminHeader.JoinSplit | src/components/Admin/AdminHeader.tsx:28 | joining the pieces of `split(' ')` with spaces gives back the string |
| AdminHeader.FirstChars | src/components/Admin/AdminHeader.tsx:29-30 | at most one character per piece |
| AdminHeader.Take2 | src/components/Admin/AdminHeader.tsx:32 | `slice(0, 2)` is the prefix of length `min(2, length)` |
| AdminHeader.Initials | src/components/Admin/AdminHeader.tsx:26-32 | the initials are at most two characters |
| AdminHeader.FirstCharsOfSplit | src/components/Admin/AdminHeader.tsx:27-30 | the first characters of the split pieces are exactly the word-start characters |
| AdminHeader.StartsAfterIsWordStarts | src/components/Admin/AdminHeader.tsx:27-30 | scanning for word starts from any position agrees with the positional definition of a word start |
| AdminHeader.InitialsAreWordStarts | src/components/Admin/AdminHeader.tsx:26-32 | the initials are the upper-cased characters that start a word (follow the start or a space), in order, cut to two |
| AdminHeader.SplitWord | src/components/Admin/AdminHeader.tsx:28 | a piece without spaces splits off as one word |
| AdminHeader.InitialsOfOneWord | src/components/Admin/AdminHeader.tsx:26-35 | the fallback name `Admin` has the initial `A` |
| AdminHeader.InitialsOfTwoWords | src/components/Admin/AdminHeader.tsx:26-32 | `jane doe` has the initials `JD` |
| AdminHeader.InitialsOfFirstAndLast | src/components/Admin/AdminHeader.tsx:26-35 | a first and a last name without spaces give their upper-cased first letters |
| AdminHeader.FullName | src/components/Admin/AdminHeader.tsx:34-35 | the name is never empty and never padded with white space; it is `Admin` when `"first last"` (missing names as empty) is all white space, and otherwise the `trim` of `"first last"` |
| AdminHeader.FullNameOfBothNames | src/components/Admin/AdminHeader.tsx:34-35 | two non-empty, unpadded names give `"first last"` |
| AdminHeader.FullNameOfLastNameOnly | src/components/Admin/AdminHeader.tsx:34-35 | a missing or empty first name and an unpadded last name give the last name alone |
| AdminHeader.FullNameHasInitial | src/components/Admin/AdminHeader.tsx:34-75 | the avatar always shows at least one initial |
| AdminHeader.Role | src/components/Admin/AdminHeader.tsx:36 | the role is never empty: the admin's role when set, otherwise `Administrator` |
| AdminHeader.Header.constructor | src/components/Admin/AdminHeader.tsx:18 | the menu starts closed |
| AdminHeader.Header.ProfileClick | src/components/Admin/AdminHeader.tsx:65 | the profile button flips the menu and calls nothing |
| AdminHeader.Header.MenuButtonClick | src/components/Admin/AdminHeader.tsx:44 | the mobile menu button calls `onMenuToggle` and leaves the menu alone |
| AdminHeader.Header.HandleLogout | src/components/Admin/AdminHeader.tsx:20-24 | logout clears the auth store, closes the menu, then navigates to `/` |
| ResetPassword.HasUpper | src/pages/auth/ResetPassword.tsx:59 | holds iff some character lies in `A`..`Z` |
| ResetPassword.HasMinLength | src/pages/auth/ResetPassword.tsx:133 | the minimum-length rule, eight characters; `PasswordError` and `AcceptedPassword` state it |
| ResetPassword.PasswordError | src/pages/auth/ResetPassword.tsx:131-138 | the field is accepted iff it is non-empty, at least 8 long and has an upper-case letter; otherwise the first failing rule's message, in the form's order |
| ResetPassword.ChecklistMatchesValidity | src/pages/auth/ResetPassword.tsx:59-60 | both checklist ticks show exactly when the password field is accepted |
| ResetPassword.AcceptedPassword | src/pages/auth/ResetPassword.tsx:131-138 | an accepted password is at least 8 long and contains a letter from `A` to `Z` |
| ResetPassword.ConfirmationError | src/pages/auth/ResetPassword.tsx:161-165 | the confirmation is accepted iff it is non-empty and equals the password; otherwise the matching message |
| ResetPassword.ConfirmationRepeatsPassword | src/pages/auth/ResetPassword.tsx:161-165 | with an accepted password, the confirmation is accepted iff it repeats it |
| ResetPassword.Guard | src/pages/auth/ResetPassword.tsx:39-43 | the screen is replaced by `/forgot-password` iff the state lacks a non-empty email or code |
| ResetPassword.Submit | src/pages/auth/ResetPassword.tsx:45-57 | a rejected form or a missing state sends nothing; otherwise one request with the state's email and code and the form's two fields, followed by a navigation home only on success |
| ResetPassword.GuardedSubmissionIsComplete | src/pages/auth/ResetPassword.tsx:39-57 | when the guard lets the screen stay, every accepted submission sends a non-empty email and code and equal, accepted passwords |
| ResetPassword.UnguardedSubmissionIsIncomplete | src/pages/auth/ResetPassword.tsx:39-57 | whenever the guard redirects, a submission sends nothing or lacks its email or code |

## Left out

- The data layer (`src/services/*`, `src/queries/*`): HTTP calls and react-query caching are outside the model; each mutation is a recorded request and its outcome a `succeeds` parameter.
- Loading, error and pending flags (`isLoading`, `featureCarPending`, `resetPasswordStatus`): they only choose what to render or disable a button while a request is in flight.
- Fetching: the car list's rows, the car record and the settings response are inputs; `useGetCars` is represented by the arguments it is given (`CarsList.QueryFor`).
- The router: a navigation is a recorded call; the router reporting the location after a navigation is a separate `LocationChanged` call, which reruns the sidebar's effect only when the pathname differs; a change to the query string made outside the car list's handlers (the browser's back button) is not modelled, so `CarsPage.Valid` covers only the handlers' changes.
- `Js.ToUpper`: follows ASCII; JavaScript's `toUpperCase` also maps other letters and can lengthen a string (`ß` becomes `SS`), which the model does not capture.
- Strings: a string is a sequence of Unicode scalar values, where JavaScript has UTF-16 code units. The two differ on characters outside the Basic Multilingual Plane (an emoji is one `char` here and two code units there): `length` (the password's minimum-length rule, `ResetPassword.HasMinLength`, counts such a character once where JavaScript counts two) and indexing (`n[0]` of a name starting with one gives a lone surrogate in JavaScript and the whole character in `AdminHeader.FirstChars`).
- Awaited handlers (`CarsPage.HandleDelete`, `HandleReject`, `HandleToggleFeature`, `CarDetailsPage.HandleDelete`, `HandleReject`, `HandleToggleFeature`, `SettingsPage.HandleSave`): each is one atomic step from the request to its outcome. A user action while the request is in flight (closing a dialog, reopening it on another car, editing a setting) is not interleaved, so the model does not capture the later `set…` calls landing on the changed state.
- `Js.ParseInt`: exact integers; JavaScript numbers lose precision beyond 2^53, and `parseInt` of a fraction or exponent stops at the first non-digit as here.
- Settings values: numbers are kept as exact values and never computed with; the `Number(e.target.value)` conversion of the inputs is floating point and is left out. Object key order is taken to be insertion order. JavaScript lists keys that look like array indices (such as `"1"`) first in `Object.entries`; the model assumes no setting key has that form.
- The settings tabs, the `key_features` JSON parsing, `formatCurrency`, `formatDate`, the badge colours, images' active index and every purely presentational part.
- The debounce in `SearchableSelect`, landing-page browser APIs, and the other list screens.
- The duplicate pages under `src/pages/Auth/` and the `getInitials` copy in `src/pages/account/Profile.tsx`: they repeat the modelled logic of the routed pages and the header.
- The reset-password form's `email` and `code` default values: the submission never reads them.
- The car detail screen's delete and reject dialogs' open and close buttons: each only sets one flag, as `OpenFeatureModal` shows for the feature dialog.
