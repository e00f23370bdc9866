# Shebsh river gauge monitor — a verified model of its refresh logic

The Shebsh monitor is a dashboard for one river gauge. A refresh asks a
scraping bot for the text of the gauge's web page. A language model reads
the water level and its 24-hour change out of that text. The dashboard
derives a trend (RISING, FALLING or STABLE) from the sign of the change,
saves the reading to a Supabase table, and reloads. On start-up the
dashboard loads the history and the latest reading. It triggers a refresh
when there is no reading yet, or when the latest one is more than 24 hours
old.

This project models the deterministic logic around those remote calls, in Dafny:

- `TrendLogic`: the trend classifier and record assembly.
- `Display`: the "24h Change" card.
- `Staleness`: the auto-refresh decision.
- `Store` and `Ordering`: the Supabase adapter, over a table modelled as a
  sequence of rows. The client is either unconfigured or connected to the
  table. `ORDER BY created_at` uses Postgres's default placement of missing
  timestamps: last when ascending, first when descending.
- `Text`: the substring search used to recognise row-level-security errors.
- `Collaborators`: the scraping bot and the language model. Both are opaque,
  so each is represented only by its outcome.
- `App`: `loadData` and `handleUpdateData`. Each is a pure function from
  (state, world) to (new state, calls made). The "world" holds the outcome of
  every external call: the transport's text or error, the parser's reading or
  failure, and the error (if any) each store request receives. It also holds
  the values the database assigns on insert and the clock.

The code has no text extractor. The numbers are read from the scraped text by
a hosted language model (services/geminiService.ts:9-55), and every failure
there is reported with one fixed message (services/geminiService.ts:53). The
model represents the parser by its outcome only.

`loadData` catches its own errors. So when the reload at the end of a refresh
fails, the error shown is the load's message, or its fallback
'Failed to load history'. The refresh's own fallback is not used in that case.

## Model

| member | source | states |
|---|---|---|
| TrendLogic.ClassifyTrend | App.tsx:72-74 | RISING iff the change is positive, FALLING iff negative, STABLE iff zero |
| TrendLogic.AssembleRecord | App.tsx:76-83 | the new record copies level and change unchanged, has no id and no created_at, and its trend agrees with the sign of its change |
| TrendLogic.ConsistentTrendIsClassified | types.ts:7-13 | a record's trend agrees with its change exactly when it equals the classifier's verdict on that change |
| Display.ChangeCardOf | App.tsx:161-166 | the card shows '--' and a neutral arrow without a record; otherwise the absolute value of the change, up/Rising iff the change is positive, down/Falling iff negative, Stable iff zero |
| Display.CardAgreesWithStoredTrend | App.tsx:163-170 | for a record whose trend agrees with its change, the card's arrow and word are those of the stored trend |
| Display.CardRecoversChange | App.tsx:163-164 | magnitude plus arrow determine the signed change: the absolute value loses nothing |
| Staleness.NeedsAutoRefresh | App.tsx:28-42 | refresh is requested when there is no latest record, or when it has a timestamp more than 86 400 000 ms before now; a record without a timestamp never requests one |
| Staleness.StaleStaysStale | App.tsx:33 | a record stale at some time stays stale at every later time |
| Staleness.OneDayBoundary | App.tsx:31-33 | exactly 24 h old is fresh, 24 h plus 1 ms is stale |
| Text.ContainsIff | services/supabaseClient.ts:26 | the substring search succeeds exactly when the pattern occurs at some index of the message |
| Store.IsAccessDenied | services/supabaseClient.ts:26 | an error is an access denial iff its code is '42501' or its message contains 'row-level security' |
| Ordering.Sort | services/supabaseClient.ts:19-22 | the query result is a permutation of the table, ordered by created_at in the requested direction |
| Store.FetchWaterHistory | services/supabaseClient.ts:13-32 | unconfigured gives the empty list; an access denial fails with the fixed Access Denied message; other errors are rethrown unchanged; otherwise all rows, oldest first |
| Store.FetchLatestRecord | services/supabaseClient.ts:34-56 | unconfigured and access denial give null; other errors are rethrown; otherwise null iff the table is empty, else a row of the table that comes first in descending created_at order |
| Store.LatestMatchesEndOfHistory | services/supabaseClient.ts:19-43 | on the same non-empty table, the latest record and the last row of the history carry the same timestamp |
| Store.NewestRowIsLatest | services/supabaseClient.ts:39-55 | once a row stamped later than every stored row is appended, the latest-record query returns exactly that row |
| Store.AppendedRowIsRead | services/supabaseClient.ts:19-55 | after a row is appended, the history read contains it and the latest-record read returns a record rather than null |
| Store.Stored | App.tsx:80-83 | the stored row has an id and a timestamp, keeps the record's numbers and trend, and takes the insertion time when the record has no timestamp |
| Store.SaveWaterRecord | services/supabaseClient.ts:58-74 | unconfigured fails with the credentials-missing message; an access denial fails with the fixed RLS message; other errors are rethrown; otherwise exactly one row is appended |
| Collaborators.FetchRawText | services/protalkService.ts:7-39 | the transport's text is passed on unchanged; its failure is raised with its own message |
| Collaborators.ParseWaterData | services/geminiService.ts:9-55 | the parser's reading is passed on unchanged; every parser failure surfaces as one fixed message |
| App.ErrorText | App.tsx:44-45 | the shown error is the caught message when it is non-empty and exactly the fallback when it is empty, so it is never empty |
| App.Load | App.tsx:17-49 | loading ends with the flag down; history then latest are read in order, latest only after history succeeds; the error is clear iff both reads succeed, and a failed read shows its message or 'Failed to load history' when that is empty; a failed read keeps the earlier value; a refresh is requested iff both reads succeed and the staleness rule fires |
| App.Reload | App.tsx:89-90 | the reload after a successful save lowers both flags, keeps the saved table, and adds one or two reads after the three earlier calls; the dashboard then shows the reloaded history when that read succeeds (else the earlier one) and the reloaded latest record when both reads succeed (else the earlier one); the error is clear iff both reads succeed; another refresh is requested iff both succeed and the staleness rule fires |
| App.Refresh | App.tsx:57-98 | busy: no change and no calls; otherwise the flag ends down and calls run in strict order with none skipped; each step runs iff the previous ones succeeded: parse gets the fetched text, save gets the assembled record and appends exactly its stored row, reload follows a successful save; the table changes only then; a failure keeps history and latest and sets an error |
| App.RefreshErrorMessages | App.tsx:92-94 | a failed refresh shows the transport's message (or 'Failed to update water data' when empty), the parser's fixed message, the credentials-missing message, the fixed RLS write message, or another save error's message (with the same fallback); when the save succeeds but the reload fails, the new row stays and the load's message (or 'Failed to load history') is shown |
| App.SuccessfulRefreshShowsReading | App.tsx:85-90 | when every call succeeds, all five calls are made, no error remains, exactly the assembled reading is appended, and it appears in the reloaded history |
| App.NewestInsertBecomesLatest | App.tsx:85-90 | when the insert is stamped later than every stored reading, the reloaded latest record is the new reading, and another refresh is requested iff that stamp is over a day old |
| App.NextRefreshProceeds | App.tsx:95-97 | after a refresh completes, on success or failure, the next refresh starts by fetching text |
| App.UnconfiguredRefreshNeverWrites | services/supabaseClient.ts:58-61 | without credentials a refresh leaves the store unconfigured and never reaches the reload |
| App.FirstLoadOfEmptyStoreRequestsRefresh | App.tsx:38-42 | the first load against an unconfigured store, an empty table, or a latest-record query refused by row-level security finds no latest record and requests a refresh |

## Left out

- Rendering, JSX and styling (App.tsx:100-201, components/StatCard.tsx, components/WaterChart.tsx). They are presentational. Only the 24h-change card's value, arrow and word are modelled.
- The language-model call (services/geminiService.ts:11-48). It is a remote call and is represented as an optional reading. Its JSON cast does no validation, so the model does not check the two numbers.
- The bot transport (services/protalkService.ts). It is an HTTP call and is represented as text or an error message. Its 401/400 status-to-message mapping is not modelled.
- Environment loading and constants (services/supabaseClient.ts:5-11, constants.ts). These are configuration and appear only as the `Unconfigured` / `Configured` split of the client.
- Console logging. It has no effect on state.
- Floating-point numbers. Level and change are mathematical reals, so NaN, which the code would classify as STABLE, does not arise.
- ISO-8601 timestamps. These are integer milliseconds, so an unparsable `created_at` (which yields NaN and never triggers a refresh) is not modelled.
- Rows with equal timestamps. The database returns them in an unspecified order; the model fixes one.
- The database's own insert defaults. The new id and insertion time are a parameter, not derived from a sequence or a clock.
- The refresh that `loadData` starts by itself. It is returned as the `autoRefresh` flag and not run inside the load. The code does not wait for it either.
- React closures and interleaving. The guard is modelled as a sequential check of the current flag. In the code, the `loadData` callback is memoised with no dependencies, so it calls the first render's `handleUpdateData`, whose `isUpdating` is always false. An auto-refresh started from a reload therefore bypasses the guard. The button's `disabled` attribute is the practical guard for manual refreshes. Concurrent cycles are not modelled.
