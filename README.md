# Telegram Name Swapper: the nickname scheduler and the login connector, in Dafny

Telegram Name Swapper is a desktop tool that keeps a Telegram account's first
name in the form `"{base} | {HH}:{MM} | {day|night}"`, republishing it every
minute, after logging in through a multi-step code/password handshake. This
project models the two pieces that hold its logic and proves what they do:

- **src/renderer/app.js**: the nickname formatter, the recovery of the base
  name from a formatted name (`split(' | ')[0]`), the auto-refresh scheduler
  (`startAutoUpdate` with its periodic tick and its correction pass,
  `stopAutoUpdate`, `toggleAutoUpdate`), and the pure parts of the settings
  handling: the defaults filled in by `loadConfig`, the record `saveConfig`
  writes, the API credential check of `saveApiCredentials`, the startup
  route of `init`, its dead-session check and its base-name recovery.
- **src/telegramService.js**: class `TelegramService`: `connect`, `startAuth`
  with the library's callbacks and the handshake's completion,
  `submitCode`, `submitPassword`, `getMe`, `updateProfile`, `disconnect`
  and `getSessionString`.

Files, one module each: `wrappers.dfy` (Option, Result, JavaScript's `||` on
strings), `strings.dfy` (`includes`, `indexOf`, `split(sep)[0]`),
`nickname.dfy`, `config.dfy`, `scheduler.dfy`, `telegram.dfy`.

Time is an integer number of milliseconds since the epoch, in UTC; the local
minute of the day is `(now / 60000 + 60 * tz) mod 1440` with a Euclidean
modulus, which is what a JavaScript `Date` reports for the shifted instant,
before the epoch and for negative offsets included.

The scheduler's module-level variables (`updateInterval` as a `running`
flag, `lastUpdateTime`, `lastNickname`, `isUpdating`) are the fields of
class `Scheduler.AutoUpdater`, with the settings and the profile's display
name it reads. Each operation is also written as a function on a `View`
value (`Start`, `TickStep`, `TickFinish`, `CorrectionStep`, `Stop`,
`Toggle`, and `Run` for a run of ticks, returning ticks and correction
passes) that returns the new view and the names sent to `updateNickname`.
Each method is proved to follow its function, and the lemmas state the
properties on the functions. The tick and the correction pass are both
split at an `await`:
- A tick (`Tick`) runs up to `await updateNickname(...)`. The rest of it
  (`FinishTick`) is a later call, so a stop, a disable or a re-enable can
  come in between.
- The correction pass is split at its `get-me` call. Starting sets
  `isUpdating` at once, and `CompleteCorrection` is the rest of the pass.
  A tick that fires while the pass is under way sees the flag.

A ghost log `writes` records every name sent, so "no write happens" is
`writes == old(writes)`. Ghost counts of the pending ticks and correction
passes give the class invariant `Valid()`: `isUpdating` is set only while
one of them is under way.

`TelegramService` is a class with fields `client`, `session`,
`phoneCodeSlot`, `passwordSlot` and `authPromise`. `authPromise` is one of
none, pending or settled with an outcome. The library's callbacks are event
methods. What the library returns is a parameter of the method that awaits
it. The one-second wait in `submitCode` is the parameter
`passwordAskedMeanwhile`: whether the password callback ran during the wait.
Awaiting a promise that is still pending yields the outcome it eventually
settles with, which is the parameter `eventual`.

Some behaviour of the code is easy to miss. The model follows the code in
each of these cases:

- `startAuth` only ever resolves with "code" or "password". It never
  resolves with "success": a handshake that ends without asking for anything
  leaves the call pending.
- Stopping the scheduler does not cancel a correction pass already in
  flight. When that pass finishes, it still records its name and time and
  clears `isUpdating`, even after a stop.
- A correction pass can outlive a disable. If enabling is followed by
  disabling before the pass's `get-me` returns, the pass then sends the
  formatted name after the restore of the base
  (`Scheduler.LateCorrectionAfterRestore`). The account keeps a suffixed
  name with auto-refresh off. The round trip of
  `Scheduler.ToggleRoundTrip` holds only for the passes that finish before
  the disable.
- `isUpdating` is one flag shared by every tick and pass, so it does not
  guarantee a single publish in flight. Enable, disable, enable starts two
  correction passes. The first to finish clears the flag while the second
  is still pending, and a tick can then publish beside it
  (`Scheduler.FlagClearedWhilePassPending`, `Scheduler.OverlapScenario`).
- A tick whose write resolves after a stop still records its name and
  instant over the reset. A rejected write records nothing. Either way, its
  `finally` clears `isUpdating`, even when the
  flag now belongs to a correction pass started by a re-enable
  (`Scheduler.StaleTickAfterRestart`).
- The correction pass records the target and the time only when no write
  was needed or the write succeeded.
- Nothing keeps the code slot and the password slot from being present at
  the same time. A second `startAuth` is not rejected.
- `connect` assigns the new client before connecting, so a failed connect
  still leaves a client. It does not clear the slots.
- A `disconnect` whose client teardown throws resets nothing.
- The base-name round trip is not exact for every base. Recovering the base
  from `Format(b, tz, t)` gives `b` back exactly when `b` contains no `" | "`
  and does not end in `" |"` (`Nickname.BaseOfFormat`). For `"x |"` it gives
  `"x"` (`Nickname.BaseOfFormatCounterexample`).

## Model

| member | source | states |
|---|---|---|
| Strings.IndexOf | src/renderer/app.js:97 | the first index where the pattern occurs, no occurrence before it; None exactly when it occurs nowhere |
| Strings.Includes | src/renderer/app.js:97 | `includes` holds exactly when the pattern occurs at some index |
| Strings.SplitHead | src/renderer/app.js:98 | `split(sep)[0]` is a prefix of the input that contains no separator; it is the whole input exactly when the separator does not occur, and otherwise ends where the first separator starts |
| Nickname.Pad2 | src/renderer/app.js:172-173 | `padStart(2,'0')` gives two digits whose decimal value is the number |
| Nickname.LocalMinuteOfDay | src/renderer/app.js:168-170 | the shifted instant's minute of the day lies in 0..1439 |
| Nickname.DayLabel | src/renderer/app.js:174-175 | the label is "day" exactly when 6 <= hour < 18, else "night" |
| Nickname.Suffix | src/renderer/app.js:180 | what follows the base starts with the separator " \| " |
| Nickname.Format | src/renderer/app.js:167-181 | the formatted name starts with the base, then " \| " and a ":" two characters later, and is 14 or 16 characters longer than the base |
| Nickname.ChooseBase | src/renderer/app.js:178 | the base is `originalNickname` when it is non-empty, the profile's display name when it is missing or "" |
| Nickname.FormatNickname | src/renderer/app.js:167-181 | `formatNickname()` starts with `originalNickname` when it is non-empty, else with the display name, and always contains " \| " |
| Nickname.BaseOf | src/renderer/app.js:711-712 | the recovered base is a prefix of the name, contains no " \| ", is the whole name exactly when the name contains no " \| ", and otherwise ends where the first " \| " starts |
| Nickname.LocalClock | src/renderer/app.js:168-173 | local hour = (UTC hour + offset) mod 24 and local minute = UTC minute, for every instant and offset |
| Nickname.FormatFields | src/renderer/app.js:167-181 | the formatted name is base, " \| ", HH, ":", MM, " \| ", label, with HH the zero-padded (UTC hour + offset) mod 24, MM the zero-padded UTC minute, label that of HH |
| Nickname.FormatStableWithinMinute | src/renderer/app.js:167-181 | two instants in the same minute give the same name |
| Nickname.FormatOffsetPeriod | src/renderer/app.js:169-170 | offsets 24 hours apart give the same name |
| Nickname.FormatExampleDay | src/renderer/app.js:167-181 | "Alice", offset 0, 2024-01-01T09:05Z gives "Alice \| 09:05 \| day" |
| Nickname.FormatExampleNight | src/renderer/app.js:167-181 | "Alice", offset -5, 2024-01-01T09:05Z gives "Alice \| 04:05 \| night" |
| Nickname.FormatIncludesSeparator | src/renderer/app.js:180 | every formatted name contains " \| ", so it is never itself a clean base |
| Nickname.BaseOfFormat | src/renderer/app.js:97-98 | recovering the base from a formatted name returns the base exactly when the base has no " \| " and does not end in " \|" |
| Nickname.BaseOfFormatCounterexample | src/renderer/app.js:711-712 | the base "x \|" comes back as "x" |
| Nickname.BaseOfExample | src/renderer/app.js:708-713 | "Alice \| 09:00 \| day" gives the base "Alice" |
| Nickname.BaseOfIdempotent | src/renderer/app.js:97-98 | recovering the base of a recovered base changes nothing |
| Wrappers.OrElse | src/renderer/app.js:178 | `x \|\| fallback` on an optional string is `x` when it is non-empty, else the fallback; it is "" only when both are |
| Wrappers.Normalize | src/renderer/app.js:51 | `x \|\| null` is present exactly when `x` is non-empty, and then is `x` |
| Config.FlagOrFalse | src/renderer/app.js:47 | `x \|\| false` is true exactly when the stored flag is true |
| Config.OffsetOrZero | src/renderer/app.js:48 | `x \|\| 0` is the stored offset, or 0 when it is missing |
| Config.Load | src/renderer/app.js:44-51 | credentials and session are copied; each flag is true exactly when stored as true; the offset is the stored one, or 0 when missing; the base is the stored one when non-empty and absent otherwise |
| Config.Save | src/renderer/app.js:63-72 | the saved record has every flag and the offset, and a base exactly when the state's base is non-empty |
| Config.LoadEmpty | src/renderer/app.js:23-36 | a config with no fields loads as the initial state (auto-refresh off, offset 0, flags off, no base) |
| Config.LoadSave | src/renderer/app.js:44-72 | loading what was saved gives the settings back, an empty base becoming absent |
| Config.LoadSaveLoad | src/renderer/app.js:44-72 | a loaded state survives save and reload unchanged |
| Config.CheckCredentials | src/renderer/app.js:494-502 | accepted exactly when both fields are non-empty and the ID is all ASCII digits; missing-field and non-numeric errors in exactly their cases |
| Config.SaveCredentials | src/renderer/app.js:494-506 | accepted credentials are stored, rejected ones leave the settings unchanged |
| Config.StartupRoute | src/renderer/app.js:85-89 | credentials are asked for exactly when either is missing or empty; the stored session is used exactly when both and it are present |
| Config.IsSessionInvalid | src/renderer/app.js:118-120 | holds exactly when one of SESSION_PASSWORD_NEEDED, AUTH_KEY, 401 occurs in the message |
| Config.AfterStartupFailure | src/renderer/app.js:118-128 | when the error marks the session dead, the session is cleared, the client mark is dropped and `telegram:disconnect` is invoked exactly when a client mark was set; any other error changes nothing |
| Config.DeadSessionNotRetried | src/renderer/app.js:118-123 | after a dead session is cleared and saved, the next start asks for an interactive login |
| Config.OtherFailureRetried | src/renderer/app.js:115-131 | any other failure keeps the session, so the next start takes the same route |
| Config.RecoverBase | src/renderer/app.js:95-103 | with auto-refresh on and no base, the base is recovered from the display name and has no " \| "; otherwise nothing changes |
| Scheduler.Start | src/renderer/app.js:189-196 | starting leaves the scheduler running with the settings, display name, last name and time untouched, and sets the in-flight flag when it was stopped |
| Scheduler.TickStep | src/renderer/app.js:198-224 | a firing sends at most one name, and only when `isUpdating` was clear, leaving it set; timer and settings untouched |
| Scheduler.TickFinish | src/renderer/app.js:224-235 | a returning tick clears the in-flight flag, records its name and instant exactly when the write resolved, and touches nothing else |
| Scheduler.CorrectionStep | src/renderer/app.js:239-268 | the pass sends at most one name and always clears the in-flight flag; timer and settings untouched |
| Scheduler.Stop | src/renderer/app.js:271-280 | afterwards the scheduler is stopped, with all four variables reset when it was running |
| Scheduler.Toggle | src/renderer/app.js:699-741 | the setting flips, the scheduler runs exactly when it is now on, and at most one name (the restore) is sent, only when disabling |
| Scheduler.StartIdempotent | src/renderer/app.js:189-194 | starting a running scheduler changes nothing; starting twice is starting once; afterwards it runs |
| Scheduler.TickSkips | src/renderer/app.js:199-221 | a tick sends nothing exactly when `isUpdating` is set, less than 55000 ms passed, or the name equals the last one, and then changes nothing |
| Scheduler.TickPublishes | src/renderer/app.js:212-224 | a sending tick sends the freshly formatted name and, until its write returns, only sets `isUpdating` |
| Scheduler.TickCompletes | src/renderer/app.js:212-235 | a tick whose write returns at once records name and instant if the write resolved, and otherwise leaves the scheduler as before the tick |
| Scheduler.StaleTickAfterRestart | src/renderer/app.js:224-234 | a tick returning after disable and re-enable records its name and instant over the reset when its write resolved, and in every case clears the flag the new correction pass had set |
| Scheduler.CorrectionWritesOnlyOnDifference | src/renderer/app.js:239-268 | the pass writes exactly when the reported first name differs from the target; it records target and time unless the write failed; it always clears the in-flight flag |
| Scheduler.StopResets | src/renderer/app.js:271-280 | stopping a running scheduler resets all four variables; stopping a stopped one is a no-op; stopping is idempotent |
| Scheduler.ToggleOff | src/renderer/app.js:724-736 | disabling sends exactly the recorded base when it is non-empty, whatever recorded it, and otherwise nothing; the scheduler is then stopped and only the setting changes |
| Scheduler.ToggleOn | src/renderer/app.js:705-723 | enabling sends nothing, records the recovered base (free of " \| ") and restarts the scheduler with the correction pass under way and `isUpdating` set |
| Scheduler.RunKeeps | src/renderer/app.js:198-268 | ticks and correction passes never change the settings, the display name or the timer |
| Scheduler.SingleFlight | src/renderer/app.js:200-203 | while `isUpdating` is set, any number of ticks sends nothing and changes nothing |
| Scheduler.QuietWithinGap | src/renderer/app.js:206-210 | ticks within 55000 ms of the last recorded publish send nothing and change nothing |
| Scheduler.Debounce | src/renderer/app.js:206-227 | after a tick sends at t and its write resolves, every tick before t + 55000 sends nothing |
| Scheduler.RunSendsFormattedNames | src/renderer/app.js:214 | every name a run sends is the formatter's output at some instant |
| Scheduler.ToggleRoundTrip | src/renderer/app.js:699-741 | enable, any ticks and passes, disable: every name sent in between is the recovered base formatted, the disable sends that base (if non-empty), the scheduler ends stopped and clean, the settings differ only in the recorded base; a pass still pending at the disable is outside it |
| Scheduler.LateCorrectionAfterRestore | src/renderer/app.js:239-280 | a correction pass that returns after the disable sends the formatted name, which contains " \| ", after the restore of the base, which does not |
| Scheduler.FlagClearedWhilePassPending | src/renderer/app.js:239-266 | after enable, disable, enable, the first pass to finish clears `isUpdating` while the second is pending, and a tick is then held back only by the gap and the last name |
| Scheduler.AutoUpdater.constructor | src/renderer/app.js:184-187 | the variables start stopped and empty, nothing sent |
| Scheduler.AutoUpdater.StartAutoUpdate | src/renderer/app.js:189-196 | follows `Start`; sends nothing; a correction pass begins unless it was already running |
| Scheduler.AutoUpdater.Tick | src/renderer/app.js:198-224 | follows `TickStep`, the log growing by exactly the names it sends, a sending tick left pending |
| Scheduler.AutoUpdater.FinishTick | src/renderer/app.js:224-235 | follows `TickFinish` for a pending tick, also after a stop; sends nothing |
| Scheduler.AutoUpdater.CompleteCorrection | src/renderer/app.js:239-268 | follows `CorrectionStep`, the log growing by exactly the names it sends |
| Scheduler.AutoUpdater.StopAutoUpdate | src/renderer/app.js:271-280 | follows `Stop`; sends nothing |
| Scheduler.AutoUpdater.ToggleAutoUpdate | src/renderer/app.js:699-741 | follows `Toggle`, the log growing by the restored base on disable |
| Telegram.Settle | src/telegramService.js:101-108 | only an unsettled promise takes the handshake's outcome |
| Telegram.Awaited | src/telegramService.js:131-136 | no promise yields nothing, a settled one its outcome, a pending one the outcome it settles with |
| Telegram.DisplayName | src/telegramService.js:196 | `firstName \|\| username \|\| 'User'`, never empty |
| Telegram.ProfileOf | src/telegramService.js:195-202 | the profile copies the user's fields and carries the fallback display name |
| Telegram.PlannedWrite | src/telegramService.js:218-236 | no request exactly when the current first name (missing read as "") equals the target; otherwise the target first name and `lastName \|\| current.lastName \|\| ''` |
| Telegram.UpdateIdempotent | src/telegramService.js:224-228 | once a request took effect, the same first name issues no further request |
| Telegram.UpdateKeepsLastName | src/telegramService.js:235 | a request with an empty last name keeps the account's last name |
| Telegram.TelegramService.constructor | src/telegramService.js:10-20 | no client, both slots empty, no promise |
| Telegram.TelegramService.Connect | src/telegramService.js:22-57 | a client is installed even when connecting fails; the session is what the new client's `session.save()` reports; a connect error or a failing probe of a non-empty session fails the call; slots and promise untouched |
| Telegram.TelegramService.StartAuth | src/telegramService.js:59-98 | no client: "Client not connected" and no change; otherwise a pending promise and the step of the first requirement with its slot installed |
| Telegram.TelegramService.OnCodeRequested | src/telegramService.js:86-94 | the code callback installs the code slot |
| Telegram.TelegramService.OnPasswordRequested | src/telegramService.js:77-85 | the password callback installs the password slot |
| Telegram.TelegramService.OnHandshakeSucceeded | src/telegramService.js:101-104 | success settles the pending promise with the saved session; without a client it settles with the session-read error |
| Telegram.TelegramService.OnHandshakeFailed | src/telegramService.js:105-108 | failure settles the pending promise with the error message |
| Telegram.TelegramService.SubmitCode | src/telegramService.js:112-142 | no code slot: "No code resolver available" and no change; otherwise the code is handed over once, the slot emptied, and the reply is "password" if a password slot is present, else the awaited outcome (promise cleared), else "waiting" |
| Telegram.TelegramService.SubmitPassword | src/telegramService.js:144-164 | no password slot: "No password resolver available" and no change; otherwise handed over once, slot emptied, awaited outcome (promise cleared) or "waiting" |
| Telegram.TelegramService.AwaitCompletion | src/telegramService.js:131-139 | the reply is the awaited outcome or "waiting", and the promise is gone afterwards |
| Telegram.TelegramService.GetMe | src/telegramService.js:166-203 | no client: "Client not connected"; a failing fetch propagates; otherwise the profile with the non-empty fallback display name |
| Telegram.TelegramService.UpdateProfile | src/telegramService.js:205-245 | no client: "Client not connected"; a matching first name is skipped with no request; otherwise exactly the planned request is issued and its error, if any, propagates |
| Telegram.TelegramService.Disconnect | src/telegramService.js:247-258 | the client is dropped and both slots and the promise cleared, also when there was no client; a throwing teardown changes nothing |
| Telegram.TelegramService.GetSessionString | src/telegramService.js:260-262 | the saved session while a client exists, "" otherwise |

## Left out

- File I/O and JSON parsing in `loadConfig` and `saveConfig`. A record of optional fields stands for the parsed file. Only JSON-typed fields are modelled: a stored value of the wrong type is not.
- Screen rendering, the preview, `showScreen`, the DOM parts of `handleLogin`, the tray and autostart toggles, and `src/renderer/particles.js`. These are UI only.
- `logout` (src/renderer/app.js:763-773) is not modelled. It stops the scheduler as `Scheduler.Stop` does, and clears the session and the profile. It invokes `telegram:disconnect` when a client is marked, then saves. It leaves `autoUpdate` on and restores no base, so the account keeps its suffixed name.
- src/main.js is not part of this model. It holds the Electron window and tray, and the IPC handlers that wrap each service call in `{success, data}` or `{success: false, error}`.
- The messaging library is not modelled. This covers its transport, `client.connected` and the reconnect before `getMe` and `updateProfile`, the callback messages `onError` logs, `session.save()` (what it reports is a parameter of `Connect` and of `OnHandshakeSucceeded`, and `GetSessionString` returns the last value reported), the profile-photo download and the avatar's base64 encoding.
- `Telegram.TelegramService.Connect`: the `apiId`/`apiHash` fields and `parseInt(apiId)` are not modelled, because they are only handed to the library's constructor.
- `Telegram.ProfileOf`: `id.toString()` is kept as the integer.
- `Telegram.TelegramService.SubmitCode`, `Telegram.TelegramService.SubmitPassword`: awaiting a pending promise yields the given outcome but does not run the handshake's completion. The `.then` at telegramService.js:101-104 settles the promise and reads `session.save()` before the await returns. In the model that is the separate event `OnHandshakeSucceeded`. Until it is called, the promise stays pending and `GetSessionString` reports the session from before the login.
- `Scheduler.AutoUpdater.CompleteCorrection`: the rest of the correction pass is one call, so its own `await updateNickname(...)` is not split. The order "pass sends, disable restores, pass records over the reset" is not produced. The model gives either the pass first (its record then reset by the stop) or the restore first (`Scheduler.LateCorrectionAfterRestore`).
- Timers and interleavings. Two simplifications follow:
  - A disconnect that arrives during a submit's wait is not modelled.
  - Two handshakes started one after the other share one promise field. The model cannot tell which handshake settles it.
- Calls that never return are not outcomes of the model. Examples are a `startAuth` whose handshake ends without asking for anything, and an await on a promise that never settles.
- `Date` host-timezone and daylight-saving behaviour. The offset is a whole number of hours applied to UTC, as the code intends.
- `Config.CheckCredentials`: the `trim()` of the inputs is not modelled. The inputs are taken as already trimmed.
- `Config.AfterStartupFailure`: the disconnect it invokes is only a flag. What the service does then is `Telegram.TelegramService.Disconnect`.
- `formatNickname` throws when there is no profile and no base. The model always has a display name.
- The one-second delay in `init` before starting the scheduler, and its logging.
