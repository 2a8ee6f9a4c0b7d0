# worker-calendar: reminder scheduler, validators and small parsers

This project models the core of the calendar worker `src/worker.ts` in Dafny
and proves properties of the model. The worker is a serverless HTTP handler
with a cron trigger. It keeps an events table for a military unit, which a
secretary fills in. Every few minutes it pushes reminders over a chat gateway
to each boss before an event starts.

The model covers two parts of the worker.

- **The reminder engine of `scheduled`.** Each tick reads today's events and
  the bosses. For every event it resolves the thresholds of the event's type:
  an override stored per type, or a fixed fallback table. A threshold `th` is
  due when the rounded lead time `d` satisfies `th - 6 < d <= th`. For every
  due threshold, each boss gets one reminder. A ledger of
  (event, `pre_<th>`, boss) triples gates it: a triple already in the ledger
  is skipped. Otherwise it is marked first and then pushed.
  - `Reminders.Ledger` is a class over the set of triples.
  - `Reminders.Gateway` is a class over the append-only log of pushes.
  - `Reminders.Tick` is a method with the source's three nested loops and
    its two early returns.
  - Each method is proved against the function `Run` over the list `DueAll`
    of due reminders. The lemmas state what `Run` guarantees: nothing is
    missed; a triple is pushed at most once, even across consecutive ticks;
    ledger rows are never removed. They also cover the cost of a failed
    ledger write.
- **The validators and small parsers.**
  - `validateEventInput` and `validateMonth`.
  - The check of `POST /api/notification-settings`.
  - `chunkText` and `getCookie`, both methods with the source's loops.
  - `apiAuthOk`, including the `^Bearer\s+(.+)$` match.
  - `toYMD`, `typeColor` and `typeEmoji`.

The JavaScript behaviours these rely on are written out in module `Text`:
`trim` and its white-space set, `split` on one character, `join`,
`parseInt(…, 10)`, `String(n)`, `padStart`, and UTF-16 `length`. `Date.UTC`
is modelled as section 21.4.1 of ECMA-262 defines it, in module `TimeMath`.
That includes month overflow, the 0–99 year mapping and `TimeClip`. Instants
are integer milliseconds, and `now` is a parameter.

The files are `wrappers.dfy`, `text.dfy`, `validation.dfy`, `thresholds.dfy`,
`timemath.dfy`, `typestyle.dfy`, `chunk.dfy`, `cookies.dfy`, `auth.dfy` and
`reminders.dfy`. The modules are `Wrappers`, `Text`, `Validation`,
`Thresholds`, `TimeMath`, `TypeStyle`, `Chunking`, `Cookies`, `Auth` and
`Reminders`.

`thresholdsForType` uses the fallback table only when no non-empty override
is stored or the read fails (`src/worker.ts:433-442`). An override such as
`"abc"`, where no token is readable, gives `[]`, so that event type gets no
reminders (`Thresholds.UnreadableOverrideGivesNothing`).

## Model

| member | source | states |
|---|---|---|
| Reminders.Tick | src/worker.ts:934-1000 | the ledger and the push log end exactly as `Run` of the old state over `DueAll` of today's events and the bosses: the order is events, then thresholds, then bosses, with the early returns for no events and no bosses |
| Reminders.NotifyEvents | src/worker.ts:971-999 | the loop over today's events leaves the ledger and the log as `Run` over the reminders of the events in order |
| Reminders.DueAllStep | src/worker.ts:971-974 | one more event appends its reminders after those of the events before it |
| Reminders.NotifyEvent | src/worker.ts:972-975 | the lead time is `minutesDiff(toBkkDateTime(date, time), now)`, and the thresholds are those of the event's type under the stored settings |
| Reminders.DueThresholdsStep | src/worker.ts:976-978 | one more threshold appends its reminders, when it is due, after those of the thresholds before it |
| Reminders.NotifyThresholds | src/worker.ts:976-978 | each threshold in order fires the boss loop exactly when `th - 6 < diffMin <= th`, and never for an invalid date |
| Reminders.NotifyBosses | src/worker.ts:979-996 | each boss in order: skipped when the ledger holds the triple, otherwise marked and then pushed the text `เตือนล่วงหน้า <th> นาที` |
| Reminders.Ledger.ShouldSend | src/worker.ts:452-457 | `allowed` is true exactly when no row holds the (event, kind, target) triple |
| Reminders.Ledger.Mark | src/worker.ts:459-467 | the new ledger is `Insert` of the triple; a failed write leaves it unchanged |
| Reminders.Insert | src/worker.ts:459-467 | insert-if-absent: no row removed; only the triple may be added; a present triple changes nothing (idempotent); the triple is there afterwards exactly when the write succeeded or it already was |
| Reminders.Gateway.Send | src/worker.ts:987-995 | every push call is appended to the log, failures being caught |
| Reminders.EventsOn | src/worker.ts:961-964 | the rows are exactly today's events of the table |
| Reminders.BossIds | src/worker.ts:967-968 | the ids are exactly the non-empty `user_id`s of rows with role `boss` |
| Reminders.DueBosses | src/worker.ts:979 | one reminder per boss, in the order of the boss list |
| Reminders.RunSnoc | src/worker.ts:979-996 | one more reminder is one more step of the innermost loop |
| Reminders.Step | src/worker.ts:980-995 | one boss never loses a ledger row and adds at most its own triple, which ends up in the ledger exactly when it was there or its write succeeds; exactly one push is appended when the triple was absent, and none otherwise |
| Reminders.Run | src/worker.ts:979-996 | no run removes a ledger row |
| Reminders.RunPushBound | src/worker.ts:979-996 | a run adds at most one push per reminder, and never shortens the log |
| Reminders.RunConcat | src/worker.ts:971-999 | processing `a` then `b` is processing `a + b`, so ticks compose |
| Reminders.NoBossesNothingDue | src/worker.ts:969 | without bosses no reminder is due |
| Reminders.NoBossesNoThreshold | src/worker.ts:976-979 | without bosses no threshold of an event yields a reminder |
| Reminders.QuietTick | src/worker.ts:965-969 | a tick with no events today, or with no bosses, changes neither the ledger nor the log |
| Reminders.KindInjective | src/worker.ts:978 | different thresholds have different ledger kinds `pre_<th>` |
| Reminders.TextInjective | src/worker.ts:991 | different thresholds have different reminder texts |
| Reminders.DueOfIsDetermined | src/worker.ts:978-991 | a ledger row, and also a push, determines the event, threshold and boss it was built from |
| Reminders.BuiltIsCoherent | src/worker.ts:978-991 | reminders built by the tick never share a ledger row or a push unless they are the same |
| Reminders.DueThresholdsBuilt | src/worker.ts:976-979 | every reminder of an event comes from one of its thresholds and one boss |
| Reminders.DueAllBuilt | src/worker.ts:971-979 | every reminder of a tick comes from one event, one threshold and one boss |
| Reminders.TicksAreCoherent | src/worker.ts:934-999 | the reminders of any two ticks taken together are coherent, each tick with its own events, clock, settings and bosses |
| Reminders.RunExtends | src/worker.ts:979-996 | a run never removes a ledger row, and the log only grows |
| Reminders.NewPushesSnoc | src/worker.ts:980-984 | one more reminder adds its push exactly when its triple was not yet in the ledger |
| Reminders.PushesAreDue | src/worker.ts:980-992 | every push a run adds is for a due reminder whose triple was not in the ledger when the run began |
| Reminders.MarksArePushed | src/worker.ts:984-992 | every ledger row a run adds has had its push in that run |
| Reminders.RunShape | src/worker.ts:979-996 | the three facts above together |
| Reminders.NothingMissed | src/worker.ts:976-996 | every due reminder whose triple was not in the ledger is pushed, whether or not the writes succeed |
| Reminders.NotMissedAt | src/worker.ts:976-996 | the same for the reminder at position `i` |
| Reminders.RunMarksAll | src/worker.ts:984 | with working writes, every due triple is in the ledger after the run |
| Reminders.RunSkipsMarked | src/worker.ts:980-981 | a run whose triples are all in the ledger already changes nothing |
| Reminders.SecondTickSilent | src/worker.ts:980-984 | with working writes, a later tick that sees only reminders already handled pushes nothing |
| Reminders.RunPushesDistinct | src/worker.ts:980-992 | at most once: with working writes, the new pushes are pairwise distinct, and each comes from a triple the run added to the ledger |
| Reminders.DistinctSnoc | src/worker.ts:980-992 | appending a push not yet in a distinct log keeps it distinct |
| Reminders.TwoTicksAtMostOnce | src/worker.ts:934-1000 | over two ticks that keep the ledger, no push repeats, and none is for a triple the ledger held at the start |
| Reminders.LeadTimeSameDay | src/worker.ts:972-973 | on the event's own day, the lead time is the difference of the two clock readings, in minutes |
| Reminders.ScenarioClocks | src/worker.ts:972-973 | the readings 14:00, 13:02 and 13:03 are 58 and 57 minutes apart |
| Reminders.OneEventDue | src/worker.ts:974-979 | an event in the department with lead time in `(54, 60]` and one boss yields one `pre_60` reminder |
| Reminders.TwoTickScenario | src/worker.ts:934-1000 | a 14:00 event: the tick at 13:02 pushes exactly the 60-minute reminder once; the tick at 13:03 pushes nothing more |
| Reminders.ScenarioRows | src/worker.ts:961-968 | one event today and one boss give those rows |
| Reminders.SixtyMinuteReminder | src/worker.ts:978-991 | the 60-minute reminder has kind `pre_60` and text `เตือนล่วงหน้า 60 นาที` |
| Reminders.OneDueTwice | src/worker.ts:980-992 | with working writes, a fresh reminder seen on two ticks is pushed once |
| Reminders.FailedMarkRepeats | src/worker.ts:459-467 | when the ledger write fails, the same reminder seen twice is pushed twice |
| TimeMath.DateUtc | src/worker.ts:424 | `Date.UTC(Y, M, D, h, m, 0, 0)` is, when valid, a time value within ±8.64e15 ms and a whole number of minutes |
| TimeMath.TwoDigitYears | src/worker.ts:424 | a year from 0 to 99 is read as 1900 to 1999 |
| TimeMath.EpochIsDayZero | src/worker.ts:424 | `Date.UTC(1970, 0, 1)` is day 0 |
| TimeMath.YearLength | src/worker.ts:424 | consecutive January 1sts are `DaysInYear` days apart |
| TimeMath.LeapYearAgrees | src/worker.ts:424 | a 366-day year is exactly a Gregorian leap year |
| TimeMath.MonthLength | src/worker.ts:424 | consecutive month starts are the month's length apart, December crossing into the next year |
| TimeMath.DayOverflow | src/worker.ts:424 | a day past the month's end is that day of the next month |
| TimeMath.MonthOverflow | src/worker.ts:424 | month 12 of a year is January of the next year |
| TimeMath.ToBkkDateTime | src/worker.ts:421-426 | an instant exists only for a `YYYY-MM-DD` date and an `HH:MM` time, and it is a whole number of minutes |
| TimeMath.ValidatedEventHasInstant | src/worker.ts:421-426 | the converse: every date and time that `validateEventInput` accepts gives a valid instant |
| TimeMath.DateUtcInRange | src/worker.ts:424 | fields in the ranges of two- and four-digit strings stay inside `TimeClip` |
| TimeMath.SameDayOffset | src/worker.ts:421-426 | two times on the same date are as many minutes apart as their clock readings |
| TimeMath.BangkokSevenIsUtcMidnight | src/worker.ts:424 | 07:00 in Bangkok is a whole number of UTC days, because of the 7-hour offset |
| TimeMath.MinutesDiff | src/worker.ts:428-430 | the result is the whole number of minutes nearest to the difference, a tie rounding up |
| TimeMath.RoundingIsUnique | src/worker.ts:428-430 | that rounding has one solution only |
| TimeMath.WholeMinutes | src/worker.ts:428-430 | a whole number of minutes comes out exactly |
| TimeMath.MinutesDiffShift | src/worker.ts:428-430 | moving `now` on by `k` minutes lowers the lead time by exactly `k` |
| TimeMath.IsDue | src/worker.ts:977 | `diffMin <= th && diffMin > th - 6` holds exactly for `th - 5 <= diffMin <= th` |
| TimeMath.DueWindow | src/worker.ts:977 | a threshold is due exactly at the six lead times `th - 5` to `th` |
| TimeMath.DueWindowExamples | src/worker.ts:977 | with `th` = 60: 60 and 55 fire, 61 and 54 do not |
| TimeMath.TickDiffValue | src/worker.ts:973 | `k` five-minute ticks later, the lead time is `5k` lower |
| TimeMath.TicksHitWindow | src/worker.ts:977 | with a tick every five minutes, a threshold not yet past is due at some tick |
| TimeMath.AtMostTwoTicksDue | src/worker.ts:977 | only two adjacent ticks can see a threshold as due |
| TimeMath.TwoDigitSpelling | src/worker.ts:158-159 | `String(n).padStart(2, "0")` of `1 <= n <= 99` is two digits that read back as `n` |
| TimeMath.FourDigitSpelling | src/worker.ts:157 | `String(y)` of a four-digit year is four digits that read back as `y` |
| TimeMath.ToYMD | src/worker.ts:156-161 | for a month 0-11 and a day 1-99 the result is `String(year)`, a hyphen, two digits reading `month0 + 1`, a hyphen and two digits reading `date` |
| TimeMath.ToYMDRoundTrip | src/worker.ts:156-161 | `toYMD` of a four-digit year gives a `YYYY-MM-DD` date whose year, month and day read back unchanged |
| Thresholds.DefaultThresholds | src/worker.ts:443-449 | the fallback table is non-empty, with every entry in `[0, 1440]` |
| Thresholds.ThresholdsForType | src/worker.ts:432-450 | without a non-empty override the result is a non-empty list of minutes in `[0, 1440]`; with one, at most one entry per comma token, each the reading of some token |
| Thresholds.FallbackTable | src/worker.ts:443-449 | no override (or an empty one) gives the table: 30; 60; 60; 120,60; 60 for any other type |
| Thresholds.ParseTokens | src/worker.ts:436 | at most one entry per token, each the reading of some token |
| Thresholds.ParseTokensConcat | src/worker.ts:436 | the filter works token by token: the result for `a + b` is the result for `a` followed by the result for `b` |
| Thresholds.ParseTokensSingle | src/worker.ts:436 | a readable token is kept as its number and an unreadable one is dropped; with `ParseTokensConcat` this fixes the result for every list |
| Thresholds.ParseTokensKeepsAll | src/worker.ts:436 | when every token reads, one entry per token, in order |
| Thresholds.ParseTokensEmpty | src/worker.ts:436 | nothing survives exactly when no token reads |
| Thresholds.OverrideRoundTrip | src/worker.ts:435-437 | a stored comma list of minutes resolves to exactly that list |
| Thresholds.AcceptedSettingResolves | src/worker.ts:876-881 | a setting the POST check accepts resolves to one threshold per token, each in `[0, 1440]` |
| Thresholds.UnreadableOverrideGivesNothing | src/worker.ts:435-437 | a non-empty override with no readable token gives `[]`, and the fallback is not taken |
| Thresholds.ParseExamples | src/worker.ts:436 | `parseInt` reads `"abc"` and `""` as NaN and `"60"` as 60 |
| Thresholds.OverrideExamples | src/worker.ts:435-437 | `"abc,60,"` resolves to `[60]`; `"abc"` resolves to `[]` |
| Thresholds.OverrideExample102030 | src/worker.ts:435-437 | `"10,20,30"` resolves to `[10, 20, 30]` |
| Thresholds.DefaultRowsMatchTable | src/worker.ts:864-869 | the default rows the settings API shows resolve to the fallback table |
| Validation.ValidateEventInput | src/worker.ts:27-64 | the body is valid exactly when it is well formed (formats, type, filled text fields, UTF-16 length limits); a non-object is invalid input |
| Validation.ReportsFirstFailure | src/worker.ts:27-64 | the reported error is the first failing check in the worker's order |
| Validation.FailureIsReported | src/worker.ts:27-64 | any failing check makes the body invalid, with an error no later in the order |
| Validation.AcceptedFieldsAreNonEmpty | src/worker.ts:47-55 | an accepted body has a non-empty location, uniform and details |
| Validation.ValidateMonth | src/worker.ts:66-68 | true exactly for four digits, a hyphen and two digits |
| Validation.DateMonthIsValidMonth | src/worker.ts:66-68 | the first seven characters of a valid date are a valid month |
| Validation.AllTokensInRangeMeans | src/worker.ts:879-880 | the `some` test fails exactly when every token reads as a number in `[0, 1440]` |
| Validation.CheckThresholdSetting | src/worker.ts:876-881 | a missing field is reported exactly when either field is absent or empty; the setting is accepted exactly when both are present and every token is in range |
| Chunking.ChunkText | src/worker.ts:223-228 | the pieces concatenate to the string; each is non-empty and at most `size` long; all but the last are exactly `size` long; there are none exactly when the string is empty |
| Cookies.GetCookie | src/worker.ts:87-94 | returns the decoded value of the first part whose key is `name`, or `null` |
| Cookies.FirstCookie | src/worker.ts:89-93 | the loop returns early at the first matching part |
| Cookies.Find | src/worker.ts:89-93 | absent exactly when no part has the key; otherwise the decoded value of the first such part |
| Cookies.FirstMatchIsFound | src/worker.ts:89-91 | the first part with the key decides the result |
| Cookies.CookieParts | src/worker.ts:88-89 | an absent header splits like `""`, into at least one part |
| Cookies.TrimAll | src/worker.ts:89 | the white space after each `;` is dropped |
| Cookies.KeyValueOfPair | src/worker.ts:90-91 | a part `k=v` with no `=` in `k` has key `k` and value `v`, even when `v` holds `=` |
| Cookies.PartReassembles | src/worker.ts:90-91 | a part with an `=` is its key, `=`, and its value |
| Cookies.HeaderParts | src/worker.ts:88-89 | the parts of a header `n1=v1; n2=v2; …` are the pairs |
| Cookies.HeaderRoundTrip | src/worker.ts:87-94 | every part of such a header has the name of its pair as key and the pair's value as value |
| Cookies.FirstPairWins | src/worker.ts:87-94 | the first pair with the name is the one returned |
| Cookies.AbsentNameGivesNull | src/worker.ts:93 | a name no pair has gives `null` |
| Auth.ApiAuthOk | src/worker.ts:122-145 | open when no password is set; on a route that is not public, the request is let through exactly when the cookie, the bearer token or the header equals the password |
| Auth.BearerTokenIsGreedyMatch | src/worker.ts:140 | a token is found exactly when the regular expression matches; the token is the group of the match with the longest `\s+` |
| Auth.BearerToken | src/worker.ts:139-140 | a token is found only after the scheme; it is a non-empty suffix of the header with no line terminator |
| Auth.BearerOfCredentials | src/worker.ts:140 | `Bearer <token>` yields `<token>` |
| Auth.PublicRoutesAreOpen | src/worker.ts:125-134 | the webhook, the public reads and the secretary's writes pass without a password |
| Auth.NoCredentialsRefused | src/worker.ts:136-144 | a protected route with no credentials is refused |
| Auth.LoginCookieSuffices | src/worker.ts:137-138 | a `site_auth` cookie equal to the password suffices |
| Auth.BearerSuffices | src/worker.ts:139-141 | a bearer token equal to the password suffices |
| Auth.HeaderSuffices | src/worker.ts:142-143 | an `x-site-password` header equal to the password suffices |
| Auth.SettingsAreProtected | src/worker.ts:122-145 | reading the notification settings needs the password |
| TypeStyle.TypeColor | src/worker.ts:203-211 | the fallback grey is returned exactly for strings that are not event types; every result is a `#rrggbb` colour |
| TypeStyle.TypeEmoji | src/worker.ts:213-221 | the pushpin is returned exactly for strings that are not event types |
| TypeStyle.StylesTellTypesApart | src/worker.ts:203-221 | different event types never share a colour or an emoji |
| Text.Split | src/worker.ts:436 | `split` on one character: no piece holds the separator, and joining the pieces gives back the string |
| Text.SplitJoin | src/worker.ts:436 | `split` undoes `join` when no piece holds the separator |
| Text.ParseIntMeans | src/worker.ts:436 | `parseInt(s, 10)` is NaN exactly when no digit follows the leading white space and the optional sign; the result is negative only after a `-` |
| Text.ParseDigitsMeans | src/worker.ts:436 | the leading digits are NaN exactly when there is no leading digit |
| Text.Trim | src/worker.ts:47 | `trim` is empty exactly for all-white-space strings; otherwise it neither begins nor ends with white space |
| Text.IntToStringParses | src/worker.ts:158 | `parseInt` reads back what `String` writes |
| Text.IntToStringInjective | src/worker.ts:978 | two integers with the same decimal spelling are equal |
| Text.PadStart | src/worker.ts:158-159 | `padStart` has the requested width, ends with the string, and is filled before it |
| Text.Utf16Length | src/worker.ts:58-61 | the JavaScript length lies between the number of characters and twice that, and equals it for text in the Basic Multilingual Plane |
| Text.Utf16LengthOfChar | src/worker.ts:58-61 | one character is one code unit, or two outside the Basic Multilingual Plane |
| Text.Utf16LengthConcat | src/worker.ts:58-61 | lengths add up under concatenation, so every string counts each character as above |

## Left out

- Network and storage I/O: LINE pushes and `fetch`, the D1 database and its SQL. The tables are sequences, a set and a map passed in or held by the `Ledger` and `Gateway` classes. Messages are pushed and logged one at a time; there is no concurrency between ticks.
- The Flex message, the HTML login page and CORS headers (`buildBubble`, `buildFlexForEvents`, `json`, `protectPage`). A push carries the text and the event id in place of the Flex bubble.
- The wall clock and randomness: `now` is a parameter, and `bkkToday()` is replaced by the `today` string parameter. `ToYMD` takes the UTC year, month and day fields directly, without the `Date` accessors.
- The 08:30 attendance broadcast at `src/worker.ts:944-959`: it sends an unrelated message that the ledger does not gate.
- The `ORDER BY time` of the events query: `EventsOn` keeps table order, and the order only decides the order of pushes.
- `sent_at`, the audit log, the webhook and the parsing of Thai dates (`parseThaiDateOnly`), as well as `limit` clamps on queries.
- `decodeURIComponent` is a function parameter `decode` with no properties; the `URIError` it throws on malformed escapes is not modelled.
- URL parsing: `Auth.Request` carries the path that `new URL(req.url).pathname` would give.
- Thresholds.ThresholdsForType: a failed database read is folded into "no override", since both take the fallback table.
- Validation.ValidateEventInput: a JSON field that is not a string is folded into a missing one (`None`). For location, uniform and details the checks at `src/worker.ts:47-55` treat both alike. For date and time they do not: `.test` converts its argument to a string first, so the source accepts `date: ["2024-05-01"]` at line 31, which the model rejects. For notes, an array of more than 2000 elements is rejected at line 61, which the model accepts.
- Validation.CheckThresholdSetting: only string fields are modelled. A truthy `thresholds` that is not a string (such as `60`) makes `split` throw at `src/worker.ts:879`; the catch at 890 answers 500, where the model answers `MissingField` (400). A truthy `type` that is not a string is stored by the source and refused by the model.
- TimeMath.ToBkkDateTime: a date or time that is not in the `YYYY-MM-DD` and `HH:MM` formats is an invalid date (`None`), with no reminder. `split("-").map(Number)` of other strings is not modelled.
- TimeMath.MinutesDiff: integer milliseconds stand in for JavaScript numbers. Floating point and values above 2^53 are not modelled.
- Text.IntToString: exponent notation for very large numbers is not modelled; every integer is written in plain decimal.
- Chunking.ChunkText: it slices by characters, whereas JavaScript slices by UTF-16 code units, so a character outside the Basic Multilingual Plane is never cut in half. It requires `size > 0`, which every call site meets: all three (`src/worker.ts:287`, 303 and 326) pass 300. For `size <= 0` JavaScript loops forever on a non-empty string; on `""` the loop at `src/worker.ts:225` never runs and `[]` is returned.
- Reminders.NothingMissed: failed ledger writes are modelled, failed reads are not. The reads of `shouldSendPreNotif` (`src/worker.ts:452-457`) and the events and roles queries (961, 967), like the queries of the 08:30 broadcast (946, 948), are outside any try/catch. When one fails the source aborts the rest of the tick, and the reminders after it are not sent.
- Reminders.RunPushesDistinct and Reminders.TwoTicksAtMostOnce: at most once is proved when every ledger write succeeds, and for reminder lists that are coherent, as every tick's are (`Reminders.TicksAreCoherent`). With failing writes a reminder can repeat (`Reminders.FailedMarkRepeats`).
