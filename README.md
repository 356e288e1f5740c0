# LNJP prediction league: a Dafny model of the core

LNJP is a small football prediction league for Ligue 1. An administrator builds
each round ("journée") from the published fixture list: they pick matches,
choose a featured match and publish the round with a deadline one hour before
the first kickoff. Players submit predictions until the deadline, see an
overview of their progress, chat with the league, and receive news by web push
and an in-app inbox.

This project models the rules that decide what these endpoints and screens do:

- **the admin editor** (`src/admin/Admin.jsx`): the deadline, the date order, the default featured match, selection toggles, the featured reset, and the save guards and payload;
- **the admin token check** (`api/admin/days-save.js`, repeated word for word in `api/admin/index.js:13-29`): the `x-admin-token` header, or the `Authorization: Bearer` header read by the regular expression `/^Bearer\s+(.+)$/i` (RFC 6750 section 2.1);
- **the file-backed day store of `days-save`**: a missing or corrupt file read as empty, upsert by matchday, then sort, and the 500 answer of a failing write;
- **the admin router** (`api/admin/index.js`):
  - the action table and the outer catch;
  - `days-save`, which upserts the day and rewrites its `day_matches` link rows;
  - `football-fl1-upcoming`, which groups and selects the upcoming rounds;
  - `admin-notify`, which sends pushes and counts them;
- **the notification fan-out** (`api/admin-notify.js`): pruning of expired subscriptions (404/410, RFC 8030 section 7.3), and one recipient row per distinct user;
- **the player endpoints**:
  - `days-overview`: per-day counts and the `complete` flag;
  - `predictions-save`: the window check and one row per item;
  - `chat-send`: the ordered checks on trimmed fields;
  - `league-validate`: the invite code;
- **the admin chat** (`api/admin-chat.js`): an exact, case-sensitive `Bearer ` prefix;
- **the VAPID key conversion** (`src/lib/push.js`): base64url (RFC 4648 section 5) to the standard alphabet (RFC 4648 section 4), padding, and bytes;
- **the countdown text** of the dashboard;
- **the player interface's navigation state** (a tab whitelist and an overlay);
- **the inbox overlay**: the unread count, mark-read and delete.

The model follows the JavaScript semantics the code relies on. Module
`JsValues` gives JavaScript values, truthiness, `Number()`, `String()`, `trim`,
`||`, `??`, `?.` and UTF-16 `.length`. Module `Http` gives the shared response
shape, the outer `catch` and `requireEnv`. Where the code changes state in
place, the model is a class:

- the day store;
- the `day_matches` table;
- the three notification tables;
- the admin day editor;
- the navigation hook;
- the inbox list.

Loops are methods with loop invariants, and each is proved against a
specification function. The pure rules are functions with contracts, plus
lemmas relating them.

Store calls, fetches, push deliveries, `atob`, the clock and environment
variables are parameters. A store call is given as its result (`StoreResult`);
a push delivery as `Delivered` or `Refused(statusCode)`. An instant is an
integer number of milliseconds.

## Model

| member | source | states |
|---|---|---|
| JsValues.Or | api/days-overview.js:5 | `a \|\| b` is `a` exactly when `a` is truthy, otherwise `b` |
| JsValues.FalsyValues | api/admin-notify.js:29 | ToBoolean: a value is falsy exactly when it is undefined, null, false, 0, NaN or ""; arrays and objects are truthy |
| JsValues.OptField | src/admin/Admin.jsx:212 | `v?.key` is undefined on null or undefined, otherwise the property |
| JsValues.Coalesce | api/admin/days-save.js:67 | `a ?? b` keeps `a` unless it is null or undefined |
| JsValues.Trim | api/chat-send.js:16-19 | the trimmed text is the part of the input between the leading and the trailing whitespace, and it starts and ends with a non-whitespace character |
| JsValues.TrimOfTrimmed | api/chat-send.js:16-19 | trimming a string that has no whitespace at either end gives the string itself |
| JsValues.TrimmedText | api/days-overview.js:5-6 | `String(v \|\| "").trim()` is "" for a falsy value, the trim of a string, and is already trimmed |
| JsValues.Utf16Length | api/chat-send.js:23-25 | `.length` counts between one and two code units per character, one each when all are in the Basic Multilingual Plane |
| JsValues.NatToDecimal | api/admin/days-save.js:53 | the decimal form is non-empty, all digits, has no leading zero, and is one digit exactly below 10 |
| JsValues.DigitsOfDecimal | api/admin/days-save.js:53 | reading the decimal digits of `n` back gives `n` |
| JsValues.Decimal | api/admin/days-save.js:57 | an integer's string form has a leading '-' exactly when it is negative, followed by the digits of its magnitude |
| JsValues.StringToNumber | api/admin/days-save.js:90 | blank text is 0, and an optionally signed digit string is its integer value |
| JsValues.ParseInteger | api/admin/days-save.js:90 | an all-digit text is its decimal value, "-" and digits the negated value, and a parse ends with a digit |
| JsValues.ToStr | api/chat-send.js:16-19 | `String(v)`: a string is itself, an integer its decimal form |
| JsValues.ToNumber | api/admin/days-save.js:90 | `Number(v)`: a number is itself, null is 0, undefined and objects are NaN, and a string is read as above |
| JsValues.DecimalParses | api/admin/days-save.js:90 | the sign and digits of an integer's string form parse back to the integer |
| JsValues.NumberOfDecimal | src/admin/Admin.jsx:199 | `Number(String(n)) == n` for every integer, so the string-typed featured id reads back as the number it came from |
| Http.CaughtStatus | api/admin/index.js:286 | `e.statusCode \|\| 500`: a present non-zero code is kept, a missing or zero code becomes 500 |
| Http.Finish | api/admin/index.js:285-288 | a returned answer passes through; a thrown error answers with its caught status and its message |
| Http.RequireEnv | api/admin/index.js:7-11 | a variable is usable exactly when it is set and non-empty, and then its value is used |
| Sorting.Insert | src/admin/Admin.jsx:155 | insertion adds exactly one element, keeping all the others |
| Sorting.SortBy | src/admin/Admin.jsx:155 | the sorted copy is a permutation of the input |
| Sorting.SortBySorted | src/admin/Admin.jsx:155 | with a consistent comparator the copy is sorted: no element must follow a later one |
| Sorting.InsertSorted | src/admin/Admin.jsx:155 | inserting into a sorted list under a consistent comparator keeps it sorted |
| Sorting.InsertFrontSorted | src/admin/Admin.jsx:155 | an element that need not follow the head of a sorted list may go in front of it |
| Sorting.HeadBeforeInserted | src/admin/Admin.jsx:155 | the head of a sorted list that `x` has to follow need not follow any element of the rest with `x` inserted |
| Sorting.ConsistentSub | src/admin/Admin.jsx:155 | a comparator consistent on a list is consistent on any list of its elements |
| Sorting.KeyComparatorConsistent | api/admin/days-save.js:76 | a comparator that is the difference of integer keys is consistent |
| Sorting.SortByKey | api/admin/days-save.js:76 | sorting by a key difference gives non-decreasing keys |
| Sorting.KeyOrder | api/admin/days-save.js:76 | a pair that need not be swapped has non-decreasing keys |
| Sorting.InsertKeyUnique | api/admin/days-save.js:76 | inserting an element with a new key keeps all keys distinct |
| Sorting.SortByKeyUnique | api/admin/days-save.js:76 | sorting keeps distinct keys distinct |
| AdminDays.Kickoffs | src/admin/Admin.jsx:146-148 | the usable kickoff times are exactly those of the dated matches, and there are none exactly when no match is dated |
| AdminDays.MinOf | src/admin/Admin.jsx:150 | `Math.min(...times)` is one of the times and no greater than any of them |
| AdminDays.LeadMs | src/admin/Admin.jsx:151 | a positive number of hours is a positive lead in milliseconds |
| AdminDays.ComputeDeadline | src/admin/Admin.jsx:145-152 | null exactly when no kickoff is usable; otherwise strictly before the earliest kickoff for a positive lead |
| AdminDays.EarliestKickoff | src/admin/Admin.jsx:150 | the least usable kickoff belongs to one of the matches, and no dated match kicks off before it |
| AdminDays.DeadlineBeforeKickoffs | src/admin/Admin.jsx:145-152 | the deadline is null exactly when no match has a usable kickoff; otherwise it is the earliest kickoff minus `hoursBefore` hours, and it is strictly before every dated kickoff when `hoursBefore > 0` |
| AdminDays.CompareKickoff | src/admin/Admin.jsx:155 | negative exactly when both kickoffs are usable and the first is earlier, positive exactly when it is later; 0 when either is missing |
| AdminDays.SortByDate | src/admin/Admin.jsx:154-156 | a copy of the list with the same matches, as many times each |
| AdminDays.SortByDateSorted | src/admin/Admin.jsx:154-156 | the result is a permutation of the input, in non-decreasing kickoff order when every kickoff is usable |
| AdminDays.PickDefaultFeatured | src/admin/Admin.jsx:158-162 | "" exactly for an empty list, otherwise the id of one of the matches |
| AdminDays.DefaultFeaturedIsLatest | src/admin/Admin.jsx:158-162 | with every kickoff usable, the default featured match has the latest kickoff |
| AdminDays.SelectedMatchObjects | src/admin/Admin.jsx:188-191 | the selected matches are the editor's matches whose id is selected, in the editor's order and with their multiplicity |
| AdminDays.Ids | src/admin/Admin.jsx:198 | the id set holds exactly the ids of the matches |
| AdminDays.Without | src/admin/Admin.jsx:293 | `filter(x => x !== n)` removes every `n`; every other id keeps its number of occurrences, and the list keeps its order |
| AdminDays.Toggled | src/admin/Admin.jsx:291-294 | a selected id is removed, any other id is appended, and no other id changes membership |
| AdminDays.ToggleTwice | src/admin/Admin.jsx:291-294 | toggling twice restores the selection's members, and restores the list itself when the id was absent |
| AdminDays.WithoutAppended | src/admin/Admin.jsx:293 | removing an id just appended restores the list |
| AdminDays.ResetFeatured | src/admin/Admin.jsx:196-204 | with a non-empty selection the featured id ends up among the selected ids; a valid one is kept, an unset or stale one becomes the default |
| AdminDays.ToPayloadMatch | src/admin/Admin.jsx:318-324 | the payload entry names the same match, with its kickoff |
| AdminDays.PayloadMatches | src/admin/Admin.jsx:318-324 | one payload entry per selected match, in order |
| AdminDays.SaveDecision | src/admin/Admin.jsx:296-325 | the three guards in source order, each one's rejection exactly when the earlier ones pass, and a payload carrying the league, the matchday, the featured id and each selected id |
| AdminDays.SaveAfterReset | src/admin/Admin.jsx:196-204 | after the reset, a selection with a dated match always reaches the post, and the featured id is one of the posted matches |
| AdminDays.DayEditor.OpenCreate | src/admin/Admin.jsx:243-252 | the editor holds the matches sorted by date, nothing selected, and the latest match as featured |
| AdminDays.DayEditor.Toggle | src/admin/Admin.jsx:291-294 | the selection becomes its toggle, and the id's membership flips |
| AdminDays.DayEditor.ResetFeaturedEffect | src/admin/Admin.jsx:196-204 | the featured id becomes the reset of the old one over the current selection |
| AdminDays.DayEditor.Save | src/admin/Admin.jsx:296-325 | a rejected save records its error and posts nothing; an accepted one posts the payload |
| AdminAuth.Backtrack | api/admin/days-save.js:9 | giving back whitespace one character at a time finds the longest run after which `(.+)$` matches, or none |
| AdminAuth.BearerMatch | api/admin/days-save.js:9 | a capture, when there is one, is non-empty |
| AdminAuth.BearerMatchIsRegex | api/admin/days-save.js:9 | the match succeeds exactly when the pattern has a reading, and then captures the text after the longest whitespace run that still matches |
| AdminAuth.BearerSingleSpace | api/admin/days-save.js:9 | a prefix in any letter case, one space and a token with no leading whitespace or line break give back that token |
| AdminAuth.ReadAdminToken | api/admin/days-save.js:5-11 | a truthy `x-admin-token` wins as its string form |
| AdminAuth.ReadAdminTokenIsRegex | api/admin/days-save.js:5-11 | without `x-admin-token`, the token is non-empty exactly when the header matches, and then is the capture |
| AdminAuth.ExpectedAdminToken | api/admin/days-save.js:15 | the expected token is never empty: ADMIN_TOKEN when it is set and non-empty, otherwise the built-in secret |
| AdminAuth.AssertAdmin | api/admin/days-save.js:13-21 | the request passes exactly when the token is non-empty and equals the expected one, and otherwise fails with 401 |
| AdminAuth.BearerSecretPasses | api/admin/days-save.js:13-21 | a well-formed Bearer header carrying the expected secret passes |
| DaysSave.FindMatchday | api/admin/days-save.js:49 | `findIndex`: the first day of that matchday, or none exactly when no day has it |
| DaysSave.NextDay | api/admin/days-save.js:47-70 | the record carries the requested matchday and the current time as `updated_at` |
| DaysSave.Placed | api/admin/days-save.js:72-73 | a new matchday is appended after the unchanged days; an existing one is replaced in place; the record is in the list |
| DaysSave.Upserted | api/admin/days-save.js:76 | the sort keeps exactly the days placed |
| DaysSave.NextDayFields | api/admin/days-save.js:52-70 | the saved record keeps the existing day's id, status and dates, or takes fresh ones, and takes the matchday, title, deadline, featured id and matches from the request |
| DaysSave.UpsertedSorted | api/admin/days-save.js:72-76 | after an upsert the days are in non-decreasing matchday order |
| DaysSave.UpsertedContents | api/admin/days-save.js:72-76 | the list grows by one exactly when the matchday was new; otherwise the new record replaces the first day of its matchday and every other day stays |
| DaysSave.PlacedUnique | api/admin/days-save.js:72-73 | replacing or appending keeps matchdays unique and puts the new record in the list |
| DaysSave.UpsertedUnique | api/admin/days-save.js:72-76 | unique matchdays stay unique, and the saved record is in the store |
| DaysSave.SafeRead | api/admin/days-save.js:27-40 | a missing file, a read or parse error, or JSON without a `days` array all read as no days |
| DaysSave.UpsertIntoEmpty | api/admin/days-save.js:30-38 | after reading as empty, the store holds only the saved day: the days of an unreadable file are lost |
| DaysSave.DayStore.Read | api/admin/days-save.js:101 | the in-memory store starts as what safeReadStore read |
| DaysSave.DayStore.Upsert | api/admin/days-save.js:47-79 | the store becomes the upserted list, and the saved record is returned |
| DaysSave.Body | api/admin/days-save.js:89 | `req.body \|\| {}` is never null or undefined |
| DaysSave.NumberItems | api/admin/days-save.js:99 | `map(Number)` coerces each element, in order |
| DaysSave.NumberList | api/admin/days-save.js:99 | a non-array gives [], and an array gives its elements coerced |
| DaysSave.CheckSave | api/admin/days-save.js:83-99 | the guards in order: 405, then the admin check's 401, then 400 "matchday invalid" exactly when the matchday is not a positive finite number; the accepted body's deadline, featured id and matches are normalised as the code does |
| DaysSave.CaughtMessage | api/admin/days-save.js:108 | `e?.message \|\| "Server error"` is never empty, and is the message when there is one |
| DaysSave.HandleDaysSave | api/admin/days-save.js:81-110 | a rejected request leaves the file as it is; an accepted one upserts into what was read and answers with the saved day, the file then holding the upserted list; a failing write answers with the caught status and message and leaves the file as it was |
| AdminIndex.NameOf | api/admin/index.js:271-281 | every known action has a non-empty name |
| AdminIndex.RouteOf | api/admin/index.js:35-42 | a missing or empty action parameter routes to no handler |
| AdminIndex.RouteOfName | api/admin/index.js:271-283 | each action is reached by its own name and by no other |
| AdminIndex.Respond | api/admin/index.js:267-289 | 404 "Unknown admin action" for an unknown action; otherwise the handler's answer, or the caught error with its status code (500 when it has none) |
| AdminIndex.AdminFailureIs401 | api/admin/index.js:21-29 | an admin-token failure inside any known action reaches the client as 401 |
| AdminIndex.CheckDaysSave | api/admin/index.js:64-71 | 405, a thrown admin failure, then 400 "Invalid payload" exactly when a field is falsy or `matches` is not an array; the accepted day row carries the request's fields and `adminId \|\| "admin_system"` |
| AdminIndex.LinkOf | api/admin/index.js:105-128 | a null element throws; a number is its own match id; an object names its id and brings its details; `is_featured` is strict equality with the featured id |
| AdminIndex.LinkRows | api/admin/index.js:105-128 | all rows in order, or a throw exactly when some element is null or undefined |
| AdminIndex.FeaturedCount | api/admin/index.js:111 | never more than the number of rows |
| AdminIndex.FeaturedFlags | api/admin/index.js:111 | with distinct match ids, at most one row is featured, and exactly one when the featured id is among them |
| AdminIndex.ExactlyOneFeatured | api/admin/index.js:105-128 | built rows with distinct ids carry one featured flag when the featured id is present, and none when it is absent |
| AdminIndex.WithoutDay | api/admin/index.js:95-98 | the delete removes exactly the links of that day |
| AdminIndex.LinkTable.Empty | api/admin/index.js:95-98 | an empty link table |
| AdminIndex.LinkTable.HandleDaysSave | api/admin/index.js:64-134 | in order: the guards, then the day upsert (on error nothing changes), then the delete (on error nothing changes), then the row build and the insert; after the delete, the old links of the day are gone even when the insert fails or the build throws; on success the table is the other days' links plus the new rows |
| AdminIndex.SavedLinksOfDay | api/admin/index.js:95-131 | after a save the day's links are exactly the new rows, and other days' links are kept |
| AdminIndex.CheckIndexNotify | api/admin/index.js:186-202 | 405; a missing ADMIN_TOKEN throws; 401 exactly when the raw header differs from it; going on needs a truthy title and body, which are passed on with the url |
| AdminIndex.CheckIndexNotifyMissingVariables | api/admin/index.js:192-196 | past the token check, the first of SUPABASE_URL, SUPABASE_SERVICE_ROLE_KEY, VITE_VAPID_PUBLIC_KEY, VAPID_PRIVATE_KEY and VAPID_SUBJECT that is unset or empty throws "Missing env: " and its name |
| AdminIndex.CheckIndexNotifyTitleAndBody | api/admin/index.js:201-202 | with every variable set, the handler goes on exactly when title and body are both truthy, and otherwise answers 400 "title and body are required" |
| AdminIndex.CountDeliveries | api/admin/index.js:216-232 | one push per subscription in order; `sent` counts deliveries, `failed` counts refusals, and together they are the number of subscriptions |
| AdminIndex.HandleIndexNotify | api/admin/index.js:185-235 | the subscriptions are loaded before the inbox row is inserted; each error stops there with 500; on success every subscription gets one push and the answer carries the counts and the subscription total |
| PushTransport.CountDelivered | api/admin-notify.js:79-81 | at most one per attempt |
| PushTransport.CountFailed | api/admin-notify.js:82-83 | at most one per attempt |
| PushTransport.SentPlusFailed | api/admin-notify.js:70-94 | every attempt is counted once, as sent or failed |
| PushTransport.CountsOfUniformOutcome | api/admin-notify.js:70-94 | all delivered means everything sent; all refused means everything failed |
| AdminNotify.PayloadOf | api/admin-notify.js:63-68 | the pushed url is the notification's url when truthy, otherwise "/" |
| AdminNotify.DistinctUsers | api/admin-notify.js:51 | the recipients are exactly the truthy user ids of the subscriptions, each once |
| AdminNotify.WithoutDevice | api/admin-notify.js:88-91 | the delete removes exactly the rows of that user and device |
| AdminNotify.PrunedAfter | api/admin-notify.js:85-92 | pruning never adds a row |
| AdminNotify.PrunedAfterSurvivors | api/admin-notify.js:85-92 | a row survives the fan-out exactly when no attempt for its user and device was refused with 404 or 410 |
| AdminNotify.MarkSent | api/admin-notify.js:97-102 | the rows of the notification become "sent" with the time; all other rows are unchanged |
| AdminNotify.QueuedRows | api/admin-notify.js:54-60 | one "queued" row per distinct user, in order |
| AdminNotify.CheckNotify | api/admin-notify.js:12-29 | 405; a missing ADMIN_TOKEN gives 500; 401 exactly when the header is not "Bearer " plus the token; going on needs a truthy title and body, which are passed on with the url; a 400 means one of them is falsy |
| AdminNotify.CheckNotifyMissingVariables | api/admin-notify.js:19-24 | past the token check, the first of SUPABASE_URL, SUPABASE_SERVICE_ROLE_KEY, VITE_VAPID_PUBLIC_KEY, VAPID_PRIVATE_KEY and VAPID_SUBJECT that is unset or empty gives 500 "Missing env: " and its name |
| AdminNotify.CheckNotifyTitleAndBody | api/admin-notify.js:28-29 | with every variable set, the handler goes on exactly when title and body are both truthy, and otherwise answers 400 "title and body are required" |
| AdminNotify.Pushes | api/admin-notify.js:70-94 | the pushes picked out of the store calls are pushes, no more of them than calls |
| AdminNotify.PushesAppend | api/admin-notify.js:70-94 | the pushes of two call sequences in a row are the pushes of each, in order |
| AdminNotify.NoPushes | api/admin-notify.js:54-61 | a sequence of non-push calls holds no push |
| AdminNotify.PushesAround | api/admin-notify.js:51-102 | the recipient calls before and after the fan-out add no push |
| AdminNotify.FanOutPushes | api/admin-notify.js:70-94 | the fan-out pushes exactly once per subscription: attempt k, to subscription k's endpoint, in order, and no other push |
| AdminNotify.FanOutCallKinds | api/admin-notify.js:70-94 | the fan-out makes only pushes and deletes |
| AdminNotify.DispatchPushes | api/admin-notify.js:51-102 | after the subscriptions are read, the request pushes exactly once per subscription, in order |
| AdminNotify.NotifyDb.FanOut | api/admin-notify.js:70-94 | the counts of the attempts; the subscription table pruned by every 404/410 refusal; the exact call sequence: each push followed by a delete when refused with 404 or 410, so exactly one push per subscription, in order |
| AdminNotify.NotifyDb.Notify | api/admin-notify.js:10-108 | a stopped request changes nothing; a failed notification insert changes no table; the notification is stored before the subscriptions are read; on success the recipient rows are queued and then marked sent, the answer carries the counts, and the exact call sequence pushes once per subscription, in order |
| AdminNotify.NotifyDb.Dispatch | api/admin-notify.js:51-102 | the recipient rows queued and then marked sent (none without users), the exact call sequence with one push per subscription in order, the table pruned by the refusals, and the counts of the attempts |
| AdminNotify.AllRecipientsMarked | api/admin-notify.js:54-61 | with at least one user, every new recipient row ends "sent", leaving rows of other notifications as they were |
| Fl1Upcoming.MathMax | api/admin/index.js:140 | NaN exactly when an argument is NaN |
| Fl1Upcoming.MathMin | api/admin/index.js:140 | NaN exactly when an argument is NaN |
| Fl1Upcoming.ClampCount | api/admin/index.js:140 | as written: 5 when the parameter is absent; NaN exactly when it does not read as a number; otherwise an integer in [1, 10], equal to the value when that is within range |
| Fl1Upcoming.CurrentMatchday | api/admin/index.js:153-154 | null exactly when no raw matchday is a finite number; otherwise the least such matchday |
| Fl1Upcoming.StartOf | api/admin/index.js:171 | the start is the current matchday plus one, and is absent for an absent or zero current matchday |
| Fl1Upcoming.GroupKey | api/admin/index.js:159-160 | a fixture is grouped exactly when `Number(matchday)` is finite, under that number |
| Fl1Upcoming.Team | api/admin/index.js:166-167 | a missing team gives undefined fields; the name is `shortName` when truthy, otherwise `name` |
| Fl1Upcoming.EntryOf | api/admin/index.js:162-168 | the entry carries the fixture's id, date and status |
| Fl1Upcoming.GroupOf | api/admin/index.js:157-169 | a group holds no more entries than there are fixtures |
| Fl1Upcoming.GroupByMatchday | api/admin/index.js:157-169 | the keys are exactly the finite matchdays, each once, and every group holds that matchday's entries in fetch order |
| Fl1Upcoming.HasMatchdayStep | api/admin/index.js:157-160 | one fixture more adds its matchday, when it has one, to the matchdays seen |
| Fl1Upcoming.GroupStep | api/admin/index.js:157-169 | one fixture more appends its entry to its own matchday's group and to no other |
| Fl1Upcoming.GroupedSkip | api/admin/index.js:159-160 | a fixture without a finite matchday leaves the keys and the groups as they are |
| Fl1Upcoming.GroupedPush | api/admin/index.js:161-168 | a fixture of a matchday already seen is pushed to its group, keeping the grouping invariant |
| Fl1Upcoming.GroupedNew | api/admin/index.js:161-168 | a fixture of a new matchday adds that key once, with a group holding just its entry |
| Fl1Upcoming.GroupOfAbsent | api/admin/index.js:161 | a matchday absent from the list has an empty group |
| Fl1Upcoming.GroupSizes | api/admin/index.js:157-169 | each group is the entries of exactly the fixtures of its matchday, in order |
| Fl1Upcoming.FixturesOf | api/admin/index.js:159-160 | the fixtures of a matchday are exactly those whose `Number(matchday)` is it |
| Fl1Upcoming.Eligible | api/admin/index.js:176 | every matchday is eligible without a start; with one, exactly those not before it |
| Fl1Upcoming.EligibleOf | api/admin/index.js:175-177 | the filter keeps no more matchdays than it is given |
| Fl1Upcoming.EligibleMembers | api/admin/index.js:176 | the eligible matchdays are exactly those not before the start |
| Fl1Upcoming.EligibleStep | api/admin/index.js:175-176 | one more matchday adds itself when eligible |
| Fl1Upcoming.EligiblePrefix | api/admin/index.js:175-179 | the eligible matchdays of a prefix are a prefix of all the eligible ones |
| Fl1Upcoming.EligibleOrder | api/admin/index.js:172-176 | skipping matchdays keeps a strictly increasing list strictly increasing |
| Fl1Upcoming.Matchdays | api/admin/index.js:177 | one matchday per selected round |
| Fl1Upcoming.FromGroupsPush | api/admin/index.js:177 | pushing a round with its group keeps every round paired with its group |
| Fl1Upcoming.MatchdaysPush | api/admin/index.js:177 | pushing a round appends its matchday |
| Fl1Upcoming.StopSelection | api/admin/index.js:178 | breaking at the count leaves a prefix of the eligible rounds |
| Fl1Upcoming.EndSelection | api/admin/index.js:175-179 | running out of matchdays leaves all the eligible rounds |
| Fl1Upcoming.SelectRounds | api/admin/index.js:174-179 | the selected matchdays are a prefix of the eligible ones, all of them unless the count was reached, each round with its group |
| Fl1Upcoming.Offer | api/admin/index.js:152-181 | for a given count: the current matchday; the offered matchdays are the first eligible ones (FirstEligible: strictly increasing, present in the list and not before the start, none left out below the last offered, and all of them unless the count was reached); at most the count when it is a number of at least 1; every eligible matchday when it is NaN; each round with its fixtures |
| Fl1Upcoming.SelectionIsFirstEligible | api/admin/index.js:171-179 | the loop's prefix of the sorted eligible matchdays is the selection FirstEligible describes |
| Fl1Upcoming.FirstOfAgree | api/admin/index.js:174-179 | two selections of the first members of a pool agree position by position |
| Fl1Upcoming.NotShorter | api/admin/index.js:174-179 | two such selections have the same length: a shorter one would have to hold the whole pool or to have reached the count earlier |
| Fl1Upcoming.FirstOfUnique | api/admin/index.js:174-179 | for a given pool and count there is only one such selection |
| Fl1Upcoming.FirstEligibleUnique | api/admin/index.js:152-181 | the offered matchdays are determined by the fixtures and the count |
| Fl1Upcoming.Fl1Upcoming | api/admin/index.js:140-181 | as written: the offered matchdays are the first eligible ones for the clamped count, each round with its fixtures; at most the clamped count, so at most ten, when it reads as a number; every eligible round when it is NaN |
| Fl1Upcoming.Fl1UpcomingIntended | api/admin/index.js:140-181 | with the corrected clamp: the offered matchdays are the first eligible ones for that count, each round with its fixtures, never more than the count and so never more than ten |
| Fl1Upcoming.HandleFl1Upcoming | api/admin/index.js:136-182 | 405 unless GET; 500 "Missing FOOTBALL_DATA_TOKEN"; 500 with the HTTP status of a failed fetch; otherwise the as-written selection over the fetched list: the first eligible matchdays for the clamped count, each round with its fixtures; at most the clamped count when it reads as a number, every eligible round when it is NaN |
| Fl1Upcoming.Token | api/admin/index.js:141 | a token is found exactly when one of the two variables is set and non-empty, the first one winning |
| Fl1Upcoming.CountOfWordIsNaN | api/admin/index.js:140 | as written, `?count=abc` gives a NaN count |
| Fl1Upcoming.NaNCountSelectsAll | api/admin/index.js:178 | with a NaN count the loop never breaks, so every eligible round is offered |
| Fl1Upcoming.EligibleWithoutStart | api/admin/index.js:176 | with no start every matchday is eligible |
| Fl1Upcoming.WordCountExceedsTen | api/admin/index.js:140-179 | eleven matchdays and `?count=abc` give eleven rounds, more than the clamp's maximum of ten |
| Fl1Upcoming.ClampCountIntended | api/admin/index.js:140 | the corrected clamp: always in [1, 10], equal to the written clamp where that is a number, and 5 where it is NaN |
| Fl1Upcoming.IntendedCountBounded | api/admin/index.js:178 | with the corrected count the selection never exceeds ten rounds |
| Fl1Upcoming.SameMembers | api/admin/index.js:172 | sorting the keys keeps the same matchdays |
| Fl1Upcoming.SelectionFacts | api/admin/index.js:172-179 | the selected matchdays are strictly increasing, each eligible, and no more than a positive count |
| Fl1Upcoming.SortedMatchdays | api/admin/index.js:172 | the sorted keys are the same keys, as many times each |
| Fl1Upcoming.SortedKeys | api/admin/index.js:172 | distinct keys sorted by `a - b` are strictly increasing |
| DaysOverview.MatchCount | api/days-overview.js:36-39 | the count of a day is no more than the number of rows |
| DaysOverview.MatchCountZero | api/days-overview.js:36-39 | the count of a day is zero exactly when no row has that day |
| DaysOverview.PredSetMembers | api/days-overview.js:42-48 | a day's set holds exactly the numeric match ids that the day's predictions name |
| DaysOverview.PredSetAbsent | api/days-overview.js:44-45 | a day that no prediction names has the empty set |
| DaysOverview.PredSetBound | api/days-overview.js:41-48 | a day never has more distinct predicted ids than prediction rows |
| DaysOverview.CountMatchesByDay | api/days-overview.js:36-39 | the map has exactly the days that have links, each with its link count |
| DaysOverview.PredSetsByDay | api/days-overview.js:42-48 | the map has exactly the days that have predictions, each with its distinct match ids |
| DaysOverview.Summarize | api/days-overview.js:50-59 | a summary carries the day, its link count and its distinct prediction count, and is complete exactly when the link count is positive and equal to the prediction count |
| DaysOverview.CompleteByCountOnly | api/days-overview.js:57 | a day can be complete while its linked match was never predicted, since only counts are compared |
| DaysOverview.Ids | api/days-overview.js:18 | one id per day, in order |
| DaysOverview.Summaries | api/days-overview.js:50-59 | the output summarises each day, in order |
| DaysOverview.Overview | api/days-overview.js:36-59 | the two loops, then the output, equal the per-day summaries |
| DaysOverview.HandleDaysOverview | api/days-overview.js:3-65 | 400 exactly when the trimmed league code or user id is empty; then the days read, where a store error gives 500 and no days gives [] with no further read; otherwise the links and predictions reads, then the summaries |
| DaysOverview.ReadLinks | api/days-overview.js:21-61 | the links read, then the predictions read, then the summaries; a store error gives 500 |
| PredictionsSave.DeadlineMs | api/predictions-save.js:16 | a null deadline reads as the epoch; a deadline text that does not parse is an invalid date (NaN) |
| PredictionsSave.Closed | api/predictions-save.js:16 | a missing or unpublished day is closed; a published one is closed exactly when its deadline is a valid date before now |
| PredictionsSave.NullAndUnparsableDeadlines | api/predictions-save.js:16 | a null deadline closes the day at any instant after the epoch; an unparsable one never closes it |
| PredictionsSave.OpenUntilDeadline | api/predictions-save.js:16 | a published day is open up to and including its deadline instant and closed after it |
| PredictionsSave.RowsOf | api/predictions-save.js:20-25 | one row per item, in order, with the item's match id and pick; a throw exactly when some item is null or undefined |
| PredictionsSave.FirstNullish | api/predictions-save.js:20 | the item the map throws on is null or undefined and is one of the items |
| PredictionsSave.HandlePredictionsSave | api/predictions-save.js:3-32 | 405; a missing body throws; the day lookup first; 403 "Predictions closed" exactly when the day is missing, not published or past its deadline; a bad item list throws; otherwise one upsert of the rows, 500 on its error |
| PredictionsSave.AtMostOneWrite | api/predictions-save.js:16-27 | every request writes at most once, and only to an open day |
| ChatSend.FieldsOf | api/chat-send.js:15-19 | the four fields are read as trimmed text |
| ChatSend.CheckFields | api/chat-send.js:21-25 | each rejection holds exactly when every earlier check passes and its own fails, and the request passes exactly when all checks pass |
| ChatSend.HandleChatSend | api/chat-send.js:9-56 | 405; a missing invite code gives 500; the field checks' first rejection; a row reaches the insert only past every check and with a stored league, carrying the league's id and the trimmed fields; success exactly when the insert succeeds, with its id and creation time |
| ChatSend.HandleChatSendAfterChecks | api/chat-send.js:27-53 | past the field checks: a missing SUPABASE_URL, then a missing SUPABASE_SERVICE_ROLE_KEY, then the league lookup's error, then "No league found (seed leagues first)" each give their own 500 with no insert; otherwise the row with the league's id and the trimmed fields goes to the insert, whose error becomes the 500 and whose success is the response's |
| ChatSend.StoredRowIsClean | api/chat-send.js:21-25 | a stored message has a trimmed, non-empty user id, a display name of at least two code units, and trimmed content of at most 2000 code units |
| ChatSend.ContentLimit | api/chat-send.js:25 | 2000 characters of the Basic Multilingual Plane pass the length check, and any longer content does not |
| AdminChat.StripBearer | api/admin-chat.js:18-19 | the token is what follows an exact "Bearer " prefix, and "" without that prefix |
| AdminChat.StripBearerOfPrefixed | api/admin-chat.js:19 | stripping the prefix from "Bearer " plus a token gives back the token |
| AdminChat.LowerCaseSchemeRefused | api/admin-chat.js:19 | a lower-case "bearer " prefix yields no token |
| AdminChat.Authorized | api/admin-chat.js:18-23 | no header never passes, and passing needs a set, non-empty ADMIN_TOKEN |
| AdminChat.SecretHeaderPasses | api/admin-chat.js:21 | a header of "Bearer " plus ADMIN_TOKEN passes exactly when the variable is set and non-empty |
| AdminChat.Content | api/admin-chat.js:26-27 | the content is trimmed, and "" when the field is falsy |
| AdminChat.AdminName | api/admin-chat.js:51 | the display name is never empty: the variable when set and non-empty, otherwise "Admin LNJP" |
| AdminChat.HandleAdminChat | api/admin-chat.js:12-80 | 405; 401 "Unauthorized"; 400 on empty or over-long content; on success the profile upsert comes before the message insert, and the message carries the league's id, the admin user and the trimmed content |
| AdminChat.HandleAdminChatAfterChecks | api/admin-chat.js:33-76 | past the content checks, in order: the league lookup's error and "No league found (seed leagues first)" give 500 with no call; an unset ADMIN_CHAT_USER_ID gives 500 with no call; the upsert's error gives 500 after the upsert alone; otherwise both calls are made, the insert's error gives 500, and success carries the league id and the new message's id and creation time, both undefined when no row comes back |
| LeagueValidate.HandleLeagueValidate | api/league-validate.js:7-24 | 405; 400 "Missing leagueCode" before the variable is read; 500 when it is missing; 401 on mismatch; accepted exactly when the trimmed code equals the non-empty invite code |
| LeagueValidate.PaddedCodeAccepted | api/league-validate.js:12-18 | whitespace around the submitted code does not matter |
| LeagueValidate.PaddedTrim | api/league-validate.js:12 | trimming padding on both sides of a code gives back the code |
| LeagueValidate.LeadingOfPadded | api/league-validate.js:12 | the leading whitespace is exactly the padding |
| PushKey.Padding | src/lib/push.js:10 | between 0 and 3 '=' characters, bringing the length to a multiple of four, and none exactly when it already is one |
| PushKey.Repeat | src/lib/push.js:10 | `'='.repeat(n)` is `n` copies of the character |
| PushKey.ToStandardAlphabet | src/lib/push.js:11 | each '-' becomes '+' and each '_' becomes '/', all else unchanged |
| PushKey.ToUrlAlphabet | src/lib/push.js:11 | the reverse replacement |
| PushKey.AlphabetRoundTrip | src/lib/push.js:11 | URL-safe text comes back unchanged from the standard alphabet, which holds no '-' or '_' |
| PushKey.StandardForm | src/lib/push.js:10-11 | the text given to `atob` is the key in the standard alphabet followed by the padding |
| PushKey.NoPaddingForFullQuanta | src/lib/push.js:10 | a key whose length is a multiple of four gets no padding |
| PushKey.ByteOf | src/lib/push.js:14 | a character code below 256 is stored as itself |
| PushKey.Bytes | src/lib/push.js:13-14 | one byte per decoded character, in order |
| PushKey.UrlBase64ToUint8Array | src/lib/push.js:9-16 | a decode failure throws; otherwise a fresh array as long as the decoded text, byte `i` holding character `i` |
| Dashboard.Seconds | src_V2/v2/pages/Dashboard.jsx:5 | whole seconds of a non-negative duration, and zero below one second |
| Dashboard.Split | src_V2/v2/pages/Dashboard.jsx:6-9 | hours below 24, minutes and seconds below 60, recombining to the total |
| Dashboard.DivisionUnique | src_V2/v2/pages/Dashboard.jsx:6-9 | `Math.floor(x / n)` and `x % n` are the quotient and remainder of any decomposition whose remainder is below `n` |
| Dashboard.SplitUnique | src_V2/v2/pages/Dashboard.jsx:6-9 | days, hours below 24 and minutes and seconds below 60 that recombine to the total are the ones the split computes |
| Dashboard.Pad2 | src_V2/v2/pages/Dashboard.jsx:10 | below 100, two digits whose value is the number; from 10 on, the plain decimal form |
| Dashboard.FormatSeconds | src_V2/v2/pages/Dashboard.jsx:6-12 | the text of a whole number of seconds ends in two-digit fields separated by ":" at the sixth and third places from the end, and is longer than eight characters exactly from one day on |
| Dashboard.FormatDuration | src_V2/v2/pages/Dashboard.jsx:4-13 | the text ends in two-digit fields separated by ":" at the sixth and third places from the end, and is longer than eight characters exactly from one day on |
| Dashboard.NegativeIsZero | src_V2/v2/pages/Dashboard.jsx:5 | a negative or sub-second duration is shown as "00:00:00" |
| Dashboard.ClockText | src_V2/v2/pages/Dashboard.jsx:10-12 | eight characters with ":" at the third and sixth places |
| Dashboard.ClockTextReadsBack | src_V2/v2/pages/Dashboard.jsx:10-12 | the clock's three fields read back as the hours, minutes and seconds |
| Dashboard.ClockReadsBack | src_V2/v2/pages/Dashboard.jsx:4-13 | every text ends with the clock of the hours, minutes and seconds left after the whole days, which recombine to the seconds modulo one day; under a day the text is only that clock |
| Dashboard.SplitLessDays | src_V2/v2/pages/Dashboard.jsx:6-9 | taking the whole days off leaves no day and the same hours, minutes and seconds |
| Dashboard.DaysDropped | src_V2/v2/pages/Dashboard.jsx:6-12 | the clock is the text of the seconds left once the whole days are taken off |
| Dashboard.DaysPrefix | src_V2/v2/pages/Dashboard.jsx:11 | from a day on the day count is positive and the text is exactly the day count, "j " and the clock of the hours, minutes and seconds left after the whole days |
| Dashboard.LeagueStatus | src_V2/v2/pages/Dashboard.jsx:121 | "Prochaine journée" exactly when time remains, "Journée en cours" exactly when none does |
| Dashboard.LeagueLabel | src_V2/v2/pages/Dashboard.jsx:122 | the countdown text while time remains, the live notice otherwise |
| V2Nav.Safe | src/v2/useV2Nav.js:25 | the safe tab is always allowed, equals the requested tab exactly when that is allowed, and is "home" otherwise |
| V2Nav.SafeIdempotent | src/v2/useV2Nav.js:25 | a safe tab is its own safe form |
| V2Nav.ReadTabFromUrl | src/v2/useV2Nav.js:3-14 | always an allowed tab: the URL's tab when it is allowed, "home" when it is missing, unknown or the URL does not parse |
| V2Nav.ReadBackOfPushed | src/v2/useV2Nav.js:24-31 | a tab pushed to the URL is read back unchanged |
| V2Nav.Going | src/v2/useV2Nav.js:24-27 | `go` closes the overlay and moves to the tab exactly when it is allowed, to "home" otherwise |
| V2Nav.Opening | src/v2/useV2Nav.js:32-34 | opening the notifications keeps the tab |
| V2Nav.Closing | src/v2/useV2Nav.js:35-37 | closing the overlay keeps the tab |
| V2Nav.Popping | src/v2/useV2Nav.js:42-46 | going back re-reads the tab from the URL and keeps the overlay |
| V2Nav.GoingIdempotent | src/v2/useV2Nav.js:24-27 | going to the same tab twice ends where going once does |
| V2Nav.OpenThenClose | src/v2/useV2Nav.js:32-37 | opening then closing restores a state without an overlay |
| V2Nav.Nav.State | src/v2/useV2Nav.js:17-18 | the state is the hook's tab and overlay |
| V2Nav.Nav.constructor | src/v2/useV2Nav.js:17-18 | the tab starts as read from the URL, with no overlay and nothing pushed |
| V2Nav.Nav.Go | src/v2/useV2Nav.js:24-31 | the state becomes the `go` step and the safe tab is pushed to the history |
| V2Nav.Nav.OpenNotifications | src/v2/useV2Nav.js:32-34 | the state becomes the open step, the history unchanged |
| V2Nav.Nav.CloseOverlay | src/v2/useV2Nav.js:35-37 | the state becomes the close step, the history unchanged |
| V2Nav.Nav.OnPopState | src/v2/useV2Nav.js:42-46 | the tab is re-read from the URL, the overlay and history unchanged |
| NotificationsPage.InitialItems | src/v2/pages/Notifications.jsx:47-50 | two items: id 1 unread and id 2 read |
| NotificationsPage.UnreadCount | src/v2/pages/Notifications.jsx:52 | the count is at most the item count, zero exactly when all are read, and the full count exactly when none is |
| NotificationsPage.UnreadOfAppend | src/v2/pages/Notifications.jsx:52 | the count of a concatenation is the sum of the counts |
| NotificationsPage.InitialUnread | src/v2/pages/Notifications.jsx:47-52 | the initial list shows one unread item |
| NotificationsPage.MarkRead | src/v2/pages/Notifications.jsx:86 | same length and order; items of that id become read, every other item is unchanged |
| NotificationsPage.Without | src/v2/pages/Notifications.jsx:88 | the remaining items are exactly those of another id |
| NotificationsPage.WithoutOfAppend | src/v2/pages/Notifications.jsx:88 | the removal works element by element, so the kept items stay in order |
| NotificationsPage.WithoutAbsent | src/v2/pages/Notifications.jsx:88 | a list without that id is left as it is |
| NotificationsPage.WithoutIdempotent | src/v2/pages/Notifications.jsx:88 | deleting twice removes nothing more |
| NotificationsPage.MarkReadIdempotent | src/v2/pages/Notifications.jsx:86 | marking twice marks nothing more |
| NotificationsPage.MarkReadNeverIncreases | src/v2/pages/Notifications.jsx:52-86 | reading never raises the unread count |
| NotificationsPage.MarkReadAbsent | src/v2/pages/Notifications.jsx:86 | a list without that id is left as it is |
| NotificationsPage.MarkReadUniqueUnread | src/v2/pages/Notifications.jsx:52-86 | reading the unread item of a unique id lowers the count by exactly one |
| NotificationsPage.Inbox.Initial | src/v2/pages/Notifications.jsx:47-50 | the list starts as the two initial items |
| NotificationsPage.Inbox.OnRead | src/v2/pages/Notifications.jsx:85-87 | the list becomes the marked list and the unread count does not rise |
| NotificationsPage.Inbox.OnDelete | src/v2/pages/Notifications.jsx:88 | the list becomes the list without that id |

## Left out

- Store, network and push I/O are left out. The Supabase and pg calls, the Football-Data fetch, `webpush.sendNotification` with its VAPID setup, and the browser's `atob` are parameters or given results. Their own behaviour (filters, ordering, conflict handling) is not modelled.
- DaysSave.HandleDaysSave takes the store file as one of three states (missing, unreadable, holding days) and the outcome of `writeFileSync` as a parameter. The JSON text of the file is not modelled, nor the other top-level keys a file may carry beside `days`. A failing write is taken to leave the file as it was; a partly written file is not modelled.
- The clock is a parameter: `new Date()`, `Date.now()` and the dashboard's one-second interval.
- Date strings are not parsed. A kickoff is an integer number of milliseconds, or absent when `utcDate` is missing, null or does not parse. A deadline of `predictions-save` is an integer number of milliseconds, null (the epoch) or unparsable (an invalid date, which never closes the day).
- AdminDays.SortByDate and AdminDays.PickDefaultFeatured: a match without a usable kickoff compares equal to every other match, so with dated and undated matches mixed the comparator is not a consistent order and ECMAScript leaves the result of the sort to the engine; the model fixes one order, its insertion sort, which an engine need not follow. For [A at 5, C at 3, B undated, D at 1] an engine may return [D, C, A, B] and feature B, where the model returns [C, A, B, D] and features D. The model also treats a null `utcDate` like a missing one, whereas `new Date(null)` is the epoch, so the code sorts such a match first: for [A at 5, B with a null date] it sorts [B, A] and features A, where the model keeps [A, B] and features B.
- Numbers are integer-valued, and `Number()` reads optionally signed decimal digits, blank text and the infinities. Fractions, exponents, hexadecimal, binary and octal forms are read as NaN, where JavaScript reads them as finite numbers. Inputs that differ because of this:
  - `?count=2.5` offers three rounds in `api/admin/index.js:140,178`; the model reads NaN and offers every eligible round. `?count=1e1` is 10 there, NaN here.
  - `matchday: "1.0"` or `"1e0"` is accepted as matchday 1 by `api/admin/days-save.js:90-91`; the model answers 400 "matchday invalid". The same holds for every other `Number()` of such a text.
- `getAction`'s URL parsing is left out. The `action` query parameter is given, or absent when the URL does not parse.
- `handleDaysList` and `handleAdminChat` in `api/admin/index.js` are left out. They are a plain store read and a plain insert.
- Admin.jsx is limited to the rules listed above. Fetching the published and upcoming rounds, `openUpdateFromPublished`, and the post and its answer are I/O. The rendering is not modelled.
- Http.Finish uses the thrown error's message as it is. The `|| String(e)` fallback for an empty message is not modelled.
- The TypeError messages for reading through null or undefined follow the V8 wording; their exact text belongs to the engine.
- PushKey.ByteOf takes character codes modulo 256. `atob` never yields a character of 256 or more, and `atob` itself is a parameter.
- The `chat-send` and `admin-chat` endpoints take the league lookup as given. Their `created_at` ordering and `limit(1)` are store behaviour.
- V2Nav.Nav.Go models the history only as the list of pushed tab values. The other query parameters of the URL and the empty state object are not modelled. React's re-rendering and memoisation are not modelled.
- NotificationsPage.Inbox models item ids as integers, so `===` is integer equality. The rendering, including the count pill, is not modelled.
- Utf16Length counts a character outside the Basic Multilingual Plane as two code units. Lone surrogates are not modelled, since a Dafny `char` is a Unicode scalar value.

## Findings

| source | as written | input that shows it | evidently intended | confidence | as-written member | corrected member |
|---|---|---|---|---|---|---|
| api/admin/index.js:140 | `Math.min(Math.max(Number(req.query?.count \|\| 5), 1), 10)` keeps NaN for a count that is not a number, and `selected.length >= NaN` is never true, so the loop at line 178 never breaks | `?count=abc` with eleven upcoming matchdays offers all eleven rounds | a count clamped to [1, 10], falling back to the default 5 when it is not a number | not executed | Fl1Upcoming.WordCountExceedsTen | Fl1Upcoming.IntendedCountBounded |

The model keeps both halves of this finding:

- Fl1Upcoming.ClampCount is the clamp as written.
- Fl1Upcoming.Fl1Upcoming and Fl1Upcoming.HandleFl1Upcoming compute the selection as written, with that clamp: with a NaN count they offer every eligible round.
- Fl1Upcoming.ClampCountIntended is the corrected clamp. Fl1Upcoming.Fl1UpcomingIntended computes the selection with it, so at most ten rounds are offered whatever the query says.
