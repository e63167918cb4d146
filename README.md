# Keyword-alert relay, modelled in Dafny

The relay watches Telegram group chats for keywords and alerts admins. It
has three parts:

- **A small relational store** (`database.py`) with five tables:
  - `admins`;
  - `keywords`;
  - `search_groups`, the chats an admin watches;
  - `private_groups`, where an admin's alerts go, at most one per admin;
  - `settings`.

  Its keyword query joins these tables to find, for one incoming message, every admin keyword that occurs in it.
- **A control bot** (`bot.py`) for a super-admin and the admins it adds. Inline buttons open prompts, and the admin's next private text message answers the prompt: an admin id, a `HH:MM:HH:MM` schedule or `off`, a keyword, a private group, or a search group. The group can be given as a link or as a numeric id. The bot also scans the groups it sits in and seeds default schedule settings at start-up.
- **A userbot** (`userbot.py`) that runs a Telegram session. At start-up `main` reads `userbot_schedule_enabled` once:
  - when it is `'true'`, the userbot runs on a daily duty cycle: it runs until the stop clock, then sleeps until the start clock the next day, and backs off 300 seconds after any error, re-reading the settings on every pass;
  - otherwise `main` runs a single session, outside any loop: an error there ends the process, with no back-off, and the setting is never read again.

  Its handler turns each supergroup message into one notification per match that has a destination, with the body truncated to 500 characters.

The Dafny project has seven modules, one file each:

| file | module | what it holds |
|---|---|---|
| `wrappers.dfy` | `Wrappers` | `Option`, and Python truthiness for ids and strings |
| `text.dfy` | `Text` | the Python `str` operations the code relies on: `lower`, `in`, `split`, `zfill`, `strip`, `startswith`, `int()` and `str()` |
| `rows.dfy` | `Rows` | selecting and deleting rows by a key column |
| `database.dfy` | `Database` | the row types; `Tables`, the whole store as a value, with one transition per writing operation; `Store`, a class with one field per table whose methods perform those transitions in place; the keyword join |
| `dispatch.dfy` | `Dispatch` | the send loop the two handlers share |
| `userbot.dfy` | `Userbot` | clock arithmetic, the scheduling loop, truncation, and `message_handler` |
| `bot.dfy` | `Bot` | how the bot reads replies and button data; the effect of a button press (`CallbackEffect`) and of a text message (`TextEffect`) as pure functions of the old state; the `Bot` class, whose handlers are proved to make those effects; start-up seeding |

Each `Store` mutator is specified by `Snapshot() == old(Snapshot()).WithX(..)`, and the lemmas about `Tables.WithX` state what the operation promises. The bot follows the same pattern: `Bot.HandleText` and `Bot.ButtonCallback` are proved to leave the store and the sender's `user_data` exactly as `TextEffect` and `CallbackEffect` say, and the lemmas about those functions state the behaviour.

Outside effects become parameters or values:

- Time is whole seconds: an `Instant` is a day number plus a second of the day.
- A Telegram send becomes a `Notification` value in the list a handler returns.
- What `get_chat` answers becomes a `Peer` parameter.
- The clock read when a button is pressed becomes a `stamp` parameter.
- The `while True` loop becomes a method over a finite sequence of observed passes (`Tick`).

## Model

| member | source | states |
|---|---|---|
| Text.Lower | database.py:265-268 | lower-casing keeps the length and maps each character on its own |
| Text.LowerIdempotent | database.py:265-268 | lower-casing twice is lower-casing once |
| Text.Contains | database.py:268 | `needle in hay` holds exactly when some window of `hay` equals `needle` |
| Text.Split | bot.py:364 | `split(sep)` returns at least one part; no part contains the separator; joining the parts with the separator gives the input back |
| Text.SplitAtFirst | bot.py:364 | splitting `a + sep + b`, where `a` has no separator, gives `a` followed by the parts of `b` |
| Text.SplitNoSep | bot.py:364 | a string without the separator splits into itself alone |
| Text.ZFill | bot.py:367-368 | `zfill(w)`: the result has length `max(len, w)`; a string of length `w` or more is unchanged; otherwise zeros are inserted on the left, after a leading sign |
| Text.ZFillDigits | bot.py:367-368 | padding a digit string keeps it a digit string with the same value |
| Text.TrimStart | bot.py:332 | `lstrip()` returns a suffix of its input that does not start with whitespace, and the whole input when it does not start with whitespace |
| Text.TrimStartOnlySpace | bot.py:332 | every character `lstrip()` cuts from the front is whitespace |
| Text.TrimEnd | bot.py:332 | `rstrip()` returns a prefix of its input that does not end with whitespace, and the whole input when it does not end with whitespace |
| Text.TrimEndOnlySpace | bot.py:332 | every character `rstrip()` cuts from the back is whitespace |
| Text.Strip | bot.py:332 | `strip()` leaves no whitespace at either end and removes nothing when there is none |
| Text.StripOnlySpace | bot.py:332 | `strip()` returns a slice of its input, and everything outside that slice is whitespace |
| Text.ParseUnsigned | bot.py:338 | `int()` of a non-empty digit string is its decimal value |
| Text.ParseSigned | bot.py:338 | `int()` of `-` followed by digits is the negated value |
| Text.IntToString | bot.py:341 | `int(str(n)) == n` for every integer `n` |
| Database.EmptyTables | database.py:20-63 | the empty store satisfies the primary-key and row-id invariants |
| Database.AddAdminOnce | database.py:67-80 | inserting an existing `user_id` changes nothing; afterwards exactly one row has that id; repeating the insert changes nothing |
| Database.WithAdminValid | database.py:67-80 | `add_admin` keeps `user_id` unique |
| Database.RemoveAdminCascade | database.py:106-115 | after `remove_admin(u)`, no admins, keywords, search_groups or private_groups row refers to `u`; every other admin's rows and all settings are unchanged |
| Database.WithoutAdminValid | database.py:106-115 | the cascade keeps every key invariant |
| Database.WithKeywordValid | database.py:119-126 | `add_keyword` uses a fresh row id and keeps ids unique |
| Database.WithoutKeywordValid | database.py:137-143 | `remove_keyword` keeps the invariants |
| Database.AdmissionExemptions | database.py:153-165 | the super-admin is never refused for capacity; a registration without a truthy `group_id` is never refused as a duplicate |
| Database.AddSearchGroupEffect | database.py:147-171 | an ordinary admin with 100 or more rows is refused for capacity; an existing truthy `(admin_id, group_id)` is refused as a duplicate; every other registration is admitted; a refusal changes nothing; a success appends exactly one row, with the next row id, to search_groups and changes no other table |
| Database.SearchGroupCapKept | database.py:153-158 | an ordinary admin with at most 100 search groups still has at most 100 after any registration |
| Database.WithSearchGroupValid | database.py:167-171 | `add_search_group` keeps row ids unique and below the next id |
| Database.WithoutSearchGroupValid | database.py:182-188 | `remove_search_group` keeps the invariants |
| Database.PrivateGroupUpsert | database.py:192-200 | afterwards the admin has exactly one private_groups row, holding this call's arguments; other admins' rows are unchanged |
| Database.PrivateGroupUpsertTwice | database.py:192-200 | after two calls for the same admin, only the second call's row remains |
| Database.WithPrivateGroupValid | database.py:192-200 | the upsert keeps `admin_id` unique in private_groups |
| Database.WithoutPrivateGroupValid | database.py:220-226 | `remove_private_group` keeps the invariants |
| Database.JoinKeyword | database.py:256-262 | a keyword row joins once for each search group of its owner with that `group_id`, and joins at all exactly when the owner watches the chat |
| Database.JoinRows | database.py:256-262 | the joined rows are exactly the keyword rows whose owner watches the chat, each carrying the owner's private group id or NULL |
| Database.MatchingRows | database.py:264-273 | the loop keeps exactly the joined rows whose lower-cased keyword occurs in the lower-cased message |
| Database.MatchCount | database.py:256-273 | one match per matching (keyword row, watching search_groups row) pair |
| Database.MatchMembers | database.py:256-273 | a match for keyword row `k` appears exactly when `k`'s owner watches the chat and `lower(k)` is a substring of the lower-cased message; the match carries the owner's private group id or `None` |
| Database.Store.constructor | database.py:20-63 | `init_db` on a fresh file gives five empty tables |
| Database.Store.AddAdmin | database.py:67-84 | returns `True` exactly when no row had the `user_id`; the new state is `WithAdmin`; afterwards the user is an admin for any super-admin |
| Database.Store.IsAdmin | database.py:86-95 | true for the super-admin regardless of the store; otherwise true exactly when an admins row has the id |
| Database.Store.GetAllAdmins | database.py:97-104 | returns one `(user_id, username)` pair per admins row and no other pair |
| Database.Store.RemoveAdmin | database.py:106-115 | the new state is the cascade `WithoutAdmin`; afterwards the user is an admin only if they are the super-admin |
| Database.Store.AddKeyword | database.py:119-126 | the new state is `WithKeyword`; the new `(id, keyword)` is among the admin's keywords |
| Database.Store.GetKeywords | database.py:128-135 | returns exactly one `(id, keyword)` pair per keyword row of the admin |
| Database.Store.RemoveKeyword | database.py:137-143 | the new state is `WithoutKeyword`; no row keeps that id |
| Database.Store.AddSearchGroup | database.py:147-171 | the verdict is the guard's (cap, then duplicate); `ok` means `Added`; the new state is `WithSearchGroup` |
| Database.Store.GetSearchGroups | database.py:173-180 | returns exactly one `(id, group_name)` pair per search_groups row of the admin |
| Database.Store.RemoveSearchGroup | database.py:182-188 | the new state is `WithoutSearchGroup`; no row keeps that id |
| Database.Store.AddPrivateGroup | database.py:192-200 | the new state is the upsert; afterwards the id and name lookups return this call's values |
| Database.Store.GetPrivateGroupId | database.py:202-209 | `None` when the admin has no row, otherwise that row's `group_id` |
| Database.Store.GetPrivateGroupName | database.py:211-218 | `None` when the admin has no row, otherwise that row's `group_name` |
| Database.Store.RemovePrivateGroup | database.py:220-226 | the new state is `WithoutPrivateGroup`; afterwards both lookups return `None` |
| Database.Store.GetSetting | database.py:230-237 | the stored value when the key is present, the default otherwise |
| Database.Store.SetSetting | database.py:239-246 | afterwards `get_setting(key, d)` is the new value for every `d`; every other key reads as before |
| Database.Store.Matches | database.py:250-276 | the matches are exactly the (keyword, owner, owner's private group id) of keyword rows whose owner watches the chat and whose lower-cased text occurs in the lower-cased message; their number is one per (keyword row, watching row) pair |
| Database.Store.CheckKeywordsInMessage | database.py:250-276 | the filtering loop over the joined rows returns `Matches` |
| Dispatch.Deliveries | userbot.py:117-130 | one notification per match with a truthy private group id, none for the others; as many as there are matches when every match has one |
| Dispatch.DeliveriesCount | userbot.py:120-130 | the number of sends equals the number of positions whose match has a truthy private group id, repeats included |
| Dispatch.DeliveriesConcat | userbot.py:120-130 | the sends keep match order: those for `a + b` are those for `a`, then those for `b` |
| Dispatch.DeliveriesSingle | userbot.py:122-130 | one match yields its notification exactly when its private group id is truthy |
| Dispatch.DeliveriesStep | userbot.py:120-130 | handling one more match appends its notification, if it has one, to those already sent |
| Dispatch.SendAll | userbot.py:120-132 | the send loop emits exactly `Deliveries` of the matches, in order |
| Dispatch.DeliveredExactlyToWatchers | bot.py:451-466 | a notification goes to chat `c` with keyword `w` exactly when a keyword row with text `w` occurs in the message, its owner watches the chat, and the owner's private group id is the non-zero `c` |
| Userbot.ClockSeconds | userbot.py:192 | a valid `time(h, m)` falls within the day |
| Userbot.ParseClockDigits | userbot.py:187-188 | `map(int, s.split(':'))` on two digit groups around a colon yields their values |
| Userbot.NextStop | userbot.py:192-194 | the stop instant is at the stop clock, strictly after `now`, and at most a day later |
| Userbot.NextStopIsFirst | userbot.py:192-194 | no instant at the stop clock lies strictly between `now` and the computed stop |
| Userbot.SecondsUntilStop | userbot.py:190-196 | `0 < seconds_until_stop <= 86400`, and it is exactly 86400 when `now` is the stop clock |
| Userbot.UntilStopFormula | userbot.py:190-196 | the deadline is the stop clock minus the current clock, plus a day when the stop has already passed today |
| Userbot.SleepAfterTimeout | userbot.py:207-208 | when the run ends at the stop instant, the sleep runs from the stop clock to the start clock, plus a day when the stop fell on `now`'s own date; the resume instant ignores the stop's rollover |
| Userbot.MidnightScenario | userbot.py:190-213 | stop 00:00, start 02:00, now 23:00: a 3600 s run, then a 7200 s sleep |
| Userbot.NegativeSleepScenario | userbot.py:190-213 | stop 22:00, start 02:00, now 23:00: the sleep is −72000 s; the value is not clamped |
| Userbot.ReadSettings | userbot.py:177-188 | the schedule is on exactly when the setting is absent or exactly `'true'`; each clock is parsed from its setting, or from its default when absent |
| Userbot.DisabledRunsForever | userbot.py:177-182 | unless the setting is `'true'`, the pass runs the session with no deadline and never sleeps |
| Userbot.MalformedClockBacksOff | userbot.py:184-220 | a clock that `int()` rejects, or a stop clock out of range, sends the pass straight to the 300 s back-off |
| Userbot.FinishedRunSleeps | userbot.py:202-213 | a session that returns or times out is followed by the sleep until the next day's start clock |
| Userbot.CrashedRunBacksOff | userbot.py:202-220 | a session that raises ends the pass in the back-off, never in the sleep |
| Userbot.ScheduleBounds | userbot.py:173-220 | over any run of passes, every deadline is in `(0, 86400]` and every back-off is 300 s |
| Userbot.StartWithSchedule | userbot.py:170-220 | the loop's actions over a sequence of passes are the passes' iterations, in order |
| Userbot.MainStartup | userbot.py:229-238 | `main` enters the scheduling loop exactly when the loop's first pass would read the schedule as on, and otherwise runs a single session |
| Userbot.Truncate | userbot.py:59-61 | a body of at most 500 characters is unchanged; a longer one becomes its first 500 characters plus `"..."` |
| Userbot.TruncateIdempotent | userbot.py:59-61 | a truncated body is not truncated again |
| Userbot.MessageHandler | userbot.py:86-135 | sends nothing for empty text, a chat that is not a megagroup, or no sender; otherwise sends one truncated notification per match with a truthy private group id |
| Bot.AdminName | bot.py:339-343 | a new admin's name is the username, else the first name, else `User_<id>`, and also `User_<id>` when `get_chat` fails |
| Bot.GroupName | bot.py:398-402 | a group's name is the chat title, else `Guruh <id>`, and also `Guruh <id>` when `get_chat` fails |
| Bot.ClassifyGroupInput | bot.py:392-406 | text starting with `http` is a link; otherwise it is an id exactly when `int()` accepts it, with that value |
| Bot.ParseScheduleInput | bot.py:364-368 | a schedule is read exactly when `split(':')` gives four parts; the two clocks are the zero-padded parts |
| Bot.ButtonRoundTrip | bot.py:115-122 | the id a per-row button is built with (`f'{prefix}_{id}'`) is the id `int(data.split('_')[1])` recovers |
| Bot.RemovalEffect | bot.py:121-315 | a delete button that passes the super-admin test removes the row it names and leaves the presser's user data unchanged |
| Bot.OthersCannotManage | bot.py:99-221 | a press by anyone but the super-admin leaves admins, settings and the open admin room unchanged |
| Bot.DeleteKeywordUnchecked | bot.py:247-249 | `delkw_<id>` removes that keyword whoever presses it |
| Bot.DeletePrivateGroupUnchecked | bot.py:277-279 | `delpr_<id>` removes that private group whoever presses it |
| Bot.DeleteSearchGroupUnchecked | bot.py:313-315 | `delgrp_<id>` removes that search group whoever presses it |
| Bot.PromptsOnlyWait | bot.py:224-285 | the add buttons only set the pending prompt; the super-admin's add-admin and schedule buttons do the same |
| Bot.BackCancels | bot.py:318-324 | "back" clears the pending prompt and changes no table; for the super-admin it also leaves the admin room |
| Bot.DisableButtonStopsSchedule | bot.py:165-168 | after the disable button, the userbot's next pass runs with no deadline and never sleeps |
| Bot.Answered | bot.py:334-358 | a prompt is answered exactly when one is pending, the sender passes `is_admin`, and super-admin prompts come from the super-admin |
| Bot.TextAnswers | bot.py:358-433 | an admin's non-empty text that answers its pending prompt applies that prompt's effect to the stripped text and consumes the prompt |
| Bot.TextIgnored | bot.py:328-356 | an empty text, or one that answers no prompt, changes nothing |
| Bot.NonAdminTextIgnored | bot.py:354-356 | a text from a non-admin changes nothing |
| Bot.PromptConsumed | bot.py:382-433 | every handled reply removes `waiting` and keeps the admin room; with no prompt pending, or a super-admin prompt pending for someone else, nothing changes |
| Bot.AdminIdReplyHandled | bot.py:336-352 | the super-admin's reply to the admin id prompt is answered before the admin gate and consumes the prompt |
| Bot.AdminIdReply | bot.py:337-350 | a reply `int()` rejects adds nobody; an accepted id ends up with an admins row |
| Bot.OffReply | bot.py:359-361 | `off` in any case sets only `userbot_schedule_enabled := 'false'`, and the userbot then reads the schedule as off |
| Bot.MalformedScheduleReply | bot.py:363-381 | a reply that is not `off` and does not split into four parts changes no setting |
| Bot.ScheduleReplyStored | bot.py:364-372 | four parts store the padded stop and start clocks and set enabled to `'true'`, whatever the parts hold |
| Bot.ScheduleReplyRead | bot.py:364-372 | for four digit groups, the userbot reads the schedule as on, with the groups' values as the stop and start clocks |
| Bot.TimeReplyHandled | bot.py:358-382 | the super-admin's reply to the schedule prompt is parsed stripped and consumes the prompt |
| Bot.ScheduleReplyReachesUserbot | bot.py:358-382 | a digit-group schedule reply consumes the prompt and is what the userbot's next pass reads |
| Bot.ScheduleReplyDrivesUserbot | userbot.py:184-213 | after a digit-group schedule reply, the next pass backs off if the stop clock is out of range; otherwise it runs until the stop clock and then sleeps until the start clock |
| Bot.KeywordReplyHandled | bot.py:384-388 | an admin's keyword reply is stored, stripped, for the acting admin, and consumes the prompt |
| Bot.PrivateGroupReplyHandled | bot.py:390-407 | an admin's private group reply is classified, stored for the acting admin, and consumes the prompt |
| Bot.SearchGroupReplyHandled | bot.py:409-433 | an admin's search group reply is classified, registered for the acting admin, and consumes the prompt |
| Bot.AddedKeywordMatches | bot.py:384-388 | a keyword added for an admin is found in a later message from a chat the admin watches, in any letter case |
| Bot.PrivateGroupReply | bot.py:392-406 | a link becomes the admin's single private group, named `Link orqali guruh`; an accepted id becomes it, named from the chat; anything else changes nothing; other tables are untouched |
| Bot.SearchGroupReply | bot.py:411-432 | a link is never a duplicate and is added unless the cap applies; an id goes through the guard; anything else changes nothing |
| Bot.SeededValues | bot.py:478-484 | each of the three schedule settings gets its default exactly when it is absent or empty; no other key changes |
| Bot.SeedingIdempotent | bot.py:478-484 | seeding twice equals seeding once |
| Bot.SeedingKeepsReadings | bot.py:478-484 | when no schedule setting is stored empty, seeding changes nothing the userbot reads |
| Bot.SeedDefaults | bot.py:478-484 | the store after seeding differs from before only in its settings, which are `Seeded` |
| Bot.Bot.constructor | bot.py:486-495 | the bot starts with an empty `user_data` for every user |
| Bot.Bot.AnswerAdminId | bot.py:336-350 | the store becomes `AdminIdEffect` of the reply |
| Bot.Bot.AnswerSchedule | bot.py:358-381 | the store becomes `ScheduleEffect` of the reply |
| Bot.Bot.AnswerPrivateGroup | bot.py:390-406 | the store becomes `PrivateGroupEffect` of the reply |
| Bot.Bot.AnswerSearchGroup | bot.py:409-432 | the store becomes `SearchGroupEffect`; a verdict exists exactly for a link or an id; `Added` exactly when the store changed |
| Bot.Bot.Answer | bot.py:336-433 | answering a prompt changes the store as `AnswerEffect` says |
| Bot.Bot.HandleText | bot.py:326-433 | the store and the sender's user data end as `TextEffect` says; no other user's data changes |
| Bot.Bot.AnswerPending | bot.py:354-433 | past the admin gate, the store and the sender's user data end as `TextEffect` says |
| Bot.Bot.ButtonCallback | bot.py:90-324 | the store and the presser's user data end as `CallbackEffect` says for the parsed button; no other user's data changes |
| Bot.Bot.Press | bot.py:97-324 | the button's branch has the effect `CallbackEffect` states |
| Bot.Bot.PressRemove | bot.py:121-315 | a delete button removes exactly the row it names |
| Bot.Bot.PressSetting | bot.py:165-210 | the disable button writes `'false'` and clears the prompt; the check button writes the timestamp |
| Bot.Bot.PressMenu | bot.py:99-324 | the menu buttons change only the presser's user data, as `CallbackEffect` says, and no table |
| Bot.Bot.CheckGroupMessage | bot.py:435-468 | nothing for empty text or a chat that is not a group or supergroup; otherwise one notification with the full text per match with a truthy private group id |

## Left out

- Telegram, Telethon and asyncio are not modelled:
  - sends, `edit_message_text`, `client.start` and `run_until_disconnected`;
  - real waiting, `wait_for` and `sleep`;
  - concurrency between the two processes.

  A send is a `Notification` value; a wait is a number of seconds.
- `get_chat` becomes a `Peer` parameter (`None` when it raises).
- The clock is a parameter:
  - `now`, and the clock after the run, as `Instant`s;
  - the `strftime` stamp of the status check as a string.
- Message texts, reply keyboards, the list and view buttons, `start`, `get_chat_id`, logging and `.env` loading only render or report. They are not modelled, apart from the names stored in rows.
- SQLite itself is not modelled: connections, the DDL of `init_db`, and database errors. `add_admin`'s exception path (database.py:81-84) is not modelled either.
- `added_date` and `updated_date` are not modelled. Neither is the `ORDER BY added_date DESC` order, which ties at second resolution.
- Database.Store.GetAllAdmins, Database.Store.GetKeywords, Database.Store.GetSearchGroups: these state which pairs are returned, and how many, but not their order, because the order depends on unmodelled timestamps that can tie.
- Database.Store.Matches: the join's row order is unspecified in SQL. The model fixes keyword-major order and proves only membership and multiplicity.
- `check_userbot` (bot.py:170-221) is modelled only through its `userbot_last_check` write. Its COUNT queries and its report are left out.
- `session_creator.py` is not part of this model: it is an interactive login that outputs a session string.
- The single session `main` runs when the schedule is off at start-up (userbot.py:236-238) is not modelled beyond `Userbot.MainStartup`'s choice: an error in it ends the process (userbot.py:240-249) with no back-off, and the setting is never read again.
- `start_userbot` (userbot.py:138-167) is reduced to its outcome: it returned or timed out (handled alike), or it raised.
- `error_handler` (bot.py:470-472) only logs and is not modelled.
- The infinite `while True` loop is modelled over a finite sequence of observed passes.
- Floats are not modelled: microseconds and `total_seconds()`, and the logged hours and minutes. Time is whole seconds.
- Text.Lower: lower-cases ASCII letters only. Python's Unicode `str.lower()` is not modelled.
- Text.Strip: strips only ASCII whitespace.
- `int()` is modelled only for ASCII digits with an optional sign and surrounding whitespace. Underscores and non-ASCII digits are not modelled.
- Bot.ParseButton mirrors the handler's tests on `query.data`. Only the per-row round trip (`Bot.ButtonRoundTrip`) is proved about it, not the literal string tests.
- Userbot.ReadSettings: states how the defaults `'00:00'` and `'02:00'` are parsed, but not their parsed values. `Userbot.ParseClockDigits` covers digit clocks in general.
- There is no rate limit or cooldown on search-group registration: `database.py` has no table for one (database.py:20-59), and `add_search_group` checks only the cap and duplicates (database.py:147-171).
- Notifications are not deduplicated: the code sends once per joined (keyword row, search-group row) pair. `Database.MatchCount` and `Dispatch.DeliveriesCount` state the multiplicity.
- In `handle_text` the code tests the prompt name in an `elif` chain. The model dispatches on the pending prompt instead (`Bot.Answered`, `Bot.AnswerEffect`). The two are equivalent because each prompt is tested once.
