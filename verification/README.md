# Matchmaking forms: a Dafny model

This project models the validation and update rules of the matchmaking site's
Django forms (`siteroot/mysite/forms.py`). Users of the site record weekly
availability windows, set matchmaking priorities, host sessions, rate their
teammates afterwards and connect game accounts. Each form's `clean` and `save`
becomes a pure function over immutable records:

- times of day are seconds since midnight;
- profiles, games and sessions are natural-number ids;
- the database is one `Db` value (`records.dfy`) that goes into and comes out of every operation.

Python exceptions the forms do not handle are explicit outcomes, not
preconditions. This covers a `KeyError` on a missing cleaned field, a
`TypeError` on a missing time, a failed profile lookup, and `.first()`
returning `None`.

Modules:

- `Records`: the entities (Profile, Availability, Session, Session_Profile, Report, connected game account) and `Db`.
- `Availability`: `UserAvailabilityForm.clean` and its save.
  - The three overlap queries are modelled as written.
  - Proved: their union is closed-interval intersection.
  - Proved: accepting a window keeps every (profile, day) group pairwise non-intersecting.
- `MatchmakingOptions`: `SelectMatchmakingOptionsForm`. It covers the duplicate-priority errors, the save, and the initial preferred game.
- `SessionCreation`: `CreateSessionForm.clean` and `save`, with the current time as a parameter.
- `SessionRating`: `RateSessionForm.save`, as a fold over the other participants' inputs.
- `AccountConnection`: `ConnectAccountForm.clean` and `save`. The rank service is an uninterpreted function parameter.

Behaviour of the code that a reader might not expect, which the model keeps:

- Session creation refuses a start strictly before now. A start exactly at now is accepted, not "at or before".
- A tag is refused when it is on any connected account, including one of the submitting user's own. The refusal is not limited to another user's account.
- Only the listed other participants get `received_ratings` raised. The submitter's count does not change.
- Overlap uses inclusive ranges, so windows that only touch are refused.

## Model

| member | source | states |
|---|---|---|
| `Availability.Select` | siteroot/mysite/forms.py:340-363 | A query returns exactly the stored windows of the same profile and day, other than the one being edited, that meet its inclusive range condition. |
| `Availability.CleanWindow` | siteroot/mysite/forms.py:317-370 | Start at or after end is refused whatever the day. Otherwise the window is refused as overlapping iff some in-scope window's start lies in `[s,e]`, its end lies in `[s,e]`, or it encloses `[s,e]`. With a time missing, `clean` adds no error. |
| `Availability.ThreeQueriesMeanMeet` | siteroot/mysite/forms.py:340-367 | For a stored window with start ≤ end and a new one with s ≤ e, the union of the three query conditions holds iff the closed intervals intersect. |
| `Availability.OverlapIffMeet` | siteroot/mysite/forms.py:335-367 | Over a well-formed table, a well-ordered window is refused iff a same-profile, same-day window other than the edited one shares at least one instant with it. |
| `Availability.BackToBackRefused` | siteroot/mysite/forms.py:340-347 | A window starting exactly where a stored one ends is refused. |
| `Availability.Submit` | siteroot/mysite/forms.py:317-370 | The form saves iff every field is present and `clean` passes. The saved row carries the submitted day, times and flag under the edited or freshly assigned key. Every other row is kept and nothing else is added. An edit overwrites the stored row in place and keeps its owner. A new row is appended for the submitting profile. |
| `Availability.SubmitKeepsWellFormed` | siteroot/mysite/forms.py:335-367 | Accepting a window keeps every start before its end, keys distinct, and every (profile, day) group pairwise non-intersecting. |
| `MatchmakingOptions.CleanPriorities` | siteroot/mysite/forms.py:509-524 | A missing priority raises. Otherwise slot k is flagged iff it equals a higher-numbered slot, slot 4 is never flagged, and no slot is flagged iff the four are pairwise distinct. |
| `MatchmakingOptions.InitialPrefGame` | siteroot/mysite/forms.py:483-488 | The stored preferred game if set. Otherwise the game of the profile's first connected account, or none when it has none. |
| `MatchmakingOptions.SaveOptions` | siteroot/mysite/forms.py:493-506 | The save writes the four priorities, the override flag and the preferred game, and leaves every other profile field as it was. |
| `MatchmakingOptions.Submit` | siteroot/mysite/forms.py:493-524 | A save happens iff all four priorities are present and pairwise distinct and the profile has an account for the preferred game. A refused form carries exactly the slots `clean` flagged. A save writes the submitted priorities, flag and game into that profile's record, keeps its other fields, and changes no other profile. |
| `MatchmakingOptions.SubmitKeepsPrioritiesDistinct` | siteroot/mysite/forms.py:493-524 | If every profile's stored priorities were pairwise distinct, they still are after a save. |
| `SessionCreation.HourLater` | siteroot/mysite/forms.py:590-594 | One hour after a time of day, wrapping past midnight as `.time()` does. |
| `SessionCreation.CleanTimingAsWritten` | siteroot/mysite/forms.py:584-604 | The date error is set iff the start moment is before now. The start error is set iff start ≥ end, and then the end error is not set. When start + 1h stays in the day, the end error is set iff end < start + 1h. From 23:00 on, the end error is never set. |
| `SessionCreation.CleanTiming` | siteroot/mysite/forms.py:597-602 | The intended rule: the end error is set iff start < end < start + 1h. The date and start errors are as written. |
| `SessionCreation.AgreeBeforeElevenPm` | siteroot/mysite/forms.py:593-602 | For starts before 23:00, the as-written and intended checks agree. |
| `SessionCreation.AsWrittenAcceptsShortLateSession` | siteroot/mysite/forms.py:593-602 | A future 23:30–23:45 session passes the check as written and is refused by the intended check. |
| `SessionCreation.SaveSession` | siteroot/mysite/forms.py:607-631 | The save appends one Session with the submitted game, start moment, end time and flag, and one Session_Profile linking the host to it with no rating. No other table changes. |
| `SessionCreation.SubmitAsWritten` | siteroot/mysite/forms.py:584-631 | The form as the source runs it. A missing input raises. Otherwise a session is created iff the as-written check (`CleanTimingAsWritten`) reports no error, and a refusal carries that check's errors. A creation appends exactly one Session and one Session_Profile for the host, and nothing else changes. |
| `SessionCreation.Submit` | siteroot/mysite/forms.py:584-631 | The same form guarded by the intended timing check (`CleanTiming`) instead. A missing input raises. Otherwise a session is created iff `CleanTiming` reports no error, and a refusal carries its errors. A creation appends exactly one Session and one Session_Profile for the host, and nothing else changes. |
| `SessionCreation.SubmitsAgreeBeforeElevenPm` | siteroot/mysite/forms.py:593-631 | For starts before 23:00, the as-written and intended submissions give the same outcome. |
| `SessionCreation.AsWrittenStoresShortLateSession` | siteroot/mysite/forms.py:593-631 | As written, a future 23:30–23:45 session is stored and lasts fifteen minutes. The intended submission refuses it with the end-time error. |
| `SessionCreation.CreatedSessionIsValid` | siteroot/mysite/forms.py:597-631 | A created session starts no earlier than now and ends at least an hour after its start, and the host is linked to it with no rating. |
| `SessionRating.Recognise` | siteroot/mysite/forms.py:433-441 | Exactly the four tag strings map to the four commendation kinds. |
| `SessionRating.Commended` | siteroot/mysite/forms.py:432-441 | Each commendation counter rises by the number of tags naming it. Every other profile field is unchanged. |
| `SessionRating.UnknownTagsIgnored` | siteroot/mysite/forms.py:433-441 | Tags that name no commendation leave the profile unchanged. |
| `SessionRating.ApplyAll` | siteroot/mysite/forms.py:425-447 | The loop finishes a prefix of the participants whose profiles exist and stops at the first missing one. It touches only profiles and reports and never adds or removes a profile. |
| `SessionRating.ApplyAllReports` | siteroot/mysite/forms.py:443-445 | The finished iterations append one toxic report per flagged participant, in order. |
| `SessionRating.ApplyAllCounters` | siteroot/mysite/forms.py:425-441 | Each profile's counter of each kind rises by the matching tags aimed at it in the finished iterations. |
| `SessionRating.ApplyAllKeepsSettings` | siteroot/mysite/forms.py:425-447 | The loop changes only the commendation counters and `received_ratings` of a profile. Its preferred server, priorities, override flag and preferred game are kept. |
| `SessionRating.ApplyAllReceived` | siteroot/mysite/forms.py:446-447 | Each profile's `received_ratings` rises by the number of times it is listed in the finished iterations, commended or not. |
| `SessionRating.FirstRow` | siteroot/mysite/forms.py:418 | Finds the first Session_Profile row of the submitter in the session, or reports that none exists. |
| `SessionRating.SaveRating` | siteroot/mysite/forms.py:416-447 | Without a Session_Profile row the save raises and changes nothing. It completes iff every listed profile exists. Whenever a row is found, the submitter's first row in the session has the rating afterwards, even if the save then raises. No other Session_Profile row changes, no profile is added or removed, and sessions, availabilities and accounts are never touched. |
| `SessionRating.CrashedRatingEffects` | siteroot/mysite/forms.py:416-447 | When participant n is the first whose profile does not exist, the save raises. The submitter's rating and the counter, received-rating, report and settings effects of the n earlier participants stay, with no transaction to undo them. Nothing after them is applied. |
| `SessionRating.SavedRatingEffects` | siteroot/mysite/forms.py:416-447 | After a completed save, the submitter's first row in the session gets the rating and no other row changes. The counters, received-rating counts and toxic reports change as the three `ApplyAll` lemmas state. Every profile keeps its preferred server, priorities, override flag and preferred game. |
| `SessionRating.FlaggedReportsShape` | siteroot/mysite/forms.py:443-445 | There are never more reports than participants. Each report is toxic, sent by the submitter, and names a flagged participant. Every flagged participant is named, and none are filed when no one is flagged. |
| `SessionRating.PlainRatingCountsOnce` | siteroot/mysite/forms.py:446 | A participant listed once with no ticked tags gets exactly one more received rating and no commendation. |
| `AccountConnection.CleanConnect` | siteroot/mysite/forms.py:222-262 | The form's decision table. With no tag, there are no errors. Tag error iff the tag is on any account. Game error iff the profile already has the game. Unsupported-game error iff the tag is free and the game is not Rainbow Six Siege. Ranks-not-found iff the lookup gives nothing or lacks a rank. Otherwise both ranks are copied. The unsupported-game error names the submitted game, and errors appear in the order of the checks, at most once each. |
| `AccountConnection.Connect` | siteroot/mysite/forms.py:209-262 | A connection is stored iff every field is present and `clean` reports no error, which needs a free tag, a game the profile lacks and the supported game. Exactly one account is appended, carrying the ranks the lookup returned, and nothing else changes. |
| `AccountConnection.ConnectKeepsConsistent` | siteroot/mysite/forms.py:230-243 | Connecting keeps tags unique across accounts and keeps each profile to at most one account per game. |
| `AccountConnection.ClaimedTagRefused` | siteroot/mysite/forms.py:232-235 | After tag T is connected, connecting T again for any profile reports the tag error and is refused. |

## Left out

- `RegistrationForm`, `EditProfileForm`, `FeedbackForm`, `DeactivateUser` and `LoginForm`: framework field wiring, authentication and ORM saves with no rules of their own.
- The HTTP views and the REST serializers: they are network and template I/O, and ORM writes with password hashing. The serializer's update reads the key `communication_comments`, so that counter never changes through the API. The serializers are not part of this model.
- The forms module cannot run as written. The model describes each form's `clean` and `save` as if the module loaded and `RateSessionForm.__init__` had built the participant list. Three defects stand in the way:
  - forms.py:399-400 are indented with spaces inside a tab-indented loop, which Python's tokenizer rejects, so the module does not compile.
  - Even if it compiled, `RateSessionForm.__init__` calls `filter` on the `Profile_Connected_Game_Account` class rather than on its `objects` manager (forms.py:400). That raises `AttributeError` at the first other participant, so a rating form for a session with other participants can never be built.
  - forms.py:8 imports `mysite.views`, and views.py:88-97 and 121-124 are not valid Python.
- `RateSessionForm.__init__` otherwise builds widgets dynamically. The model takes the list of other participants' inputs as given.
- `CreateSessionForm.__init__` filters game choices by removing from a list while iterating over it, which skips entries. It is widget setup. The check that the host owns the game is therefore not modelled.
- The rank-lookup service (its body is not part of this model) and the clock are parameters: `lookup` and `now`.
- Time zones, string parsing and Python versions:
  - Raw form strings appear as already-parsed values, or `None` when parsing fails.
  - `CreateSessionForm.save` re-parses the raw start time with `%H:%M` only, so a start typed with seconds passes `clean` and then raises in `save`. This is not modelled.
  - A midnight time counts as truthy, as it is from Python 3.5 on.
- The choice lists (days, commendations, servers) are defined in the models module, which is not part of this model. Their values are plain strings here.
- Who owns a new availability row is decided by the caller (the view is not part of this model): a new row gets the submitting profile. An edit keeps the row's owner. `Availability.SubmitKeepsWellFormed` therefore requires that an edited row belongs to the submitter.
- SessionCreation.Submit: guards the save with the intended one-hour rule (`CleanTiming`), so it refuses sessions that start at or after 23:00 and end within the hour. The form as written stores them. `SessionCreation.SubmitAsWritten` models that behaviour (see Findings).
- Transactions: none appear in the code.
  - A rating save that raises part-way keeps its earlier writes (`SessionRating.CrashedRatingEffects`).
  - If the deployment wraps requests in a transaction, those writes would be rolled back instead.
- Joining and leaving the matchmaking queue (`enter_queue`, `exit_queue`) is done in the views, not the forms. The views are not part of this model, so neither is the queue.
- Django's own field validation (required fields, choice membership, model constraints) appears only as the `None` fields and the preferred-game choice check. The form's `print` calls are omitted.

## Findings

| source | as written | input that shows it | evidently intended | confidence | as-written member | corrected member |
|---|---|---|---|---|---|---|
| siteroot/mysite/forms.py:593-602 | The one-hour buffer is `(start + 1h).time()`, which wraps past midnight. For any start from 23:00 on, the buffer is earlier than every end time, so the "at least an hour" error never fires. | A future date, start 23:30, end 23:45. The as-written check reports no error, so a 15-minute session is created. | A session must end at least one hour after it starts. Since a session ends on its start day, no session starting at or after 23:00 can be valid. | high, not executed | `SessionCreation.CleanTimingAsWritten` and `SessionCreation.SubmitAsWritten` (exhibited by `SessionCreation.AsWrittenAcceptsShortLateSession` and `SessionCreation.AsWrittenStoresShortLateSession`) | `SessionCreation.CleanTiming` (used by `SessionCreation.Submit`, proved by `SessionCreation.CreatedSessionIsValid`) |
