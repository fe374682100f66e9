# Slot-machine prize widget — a Dafny model

This project models the logic inside a promotional web widget. A visitor
fills an entry form, pulls the lever of a three-reel slot machine that
always wins, and sees a prize modal. Entries are stored in a hosted
database and summarised on an admin dashboard. The model covers four
pieces of that logic:

- **The prize draw and the reel reveal** (`SlotMachine.tsx`). The draw is a
  weighted roulette over the odds table 1/2/5/90/2. It is a pure function
  of the random number `r`, modelled as a `real`. The reveal arms three
  per-reel stop timers (2000, 2500 and 3000 ms) and a completion timer
  (3200 ms). These are modelled as a time-sorted list of timed events
  applied to the state `{isSpinning, reels, spinningReels}`. The
  completion builds the participant row, runs the save against a backend
  passed as a parameter, and reports `prizes[w]`.
- **Entry validation** (`EntryForm.tsx`). The model covers the
  required-after-trim checks and the e-mail and phone regular
  expressions. Each expression is written twice: once as the set of
  strings it matches, once as a matcher. The two are proved equal. The
  model also covers submit and the per-field change handler.
- **Dashboard statistics and CSV text** (`AdminDashboard.tsx`). This
  covers the counts and the per-prize breakdown, the zero-guarded
  percentages, and the CSV lines. Reading the CSV back with a split
  recovers the header and the rows.
- **The screen flow** (`App.tsx`). This covers the four state fields, the
  four handlers, the render guards and the static prize table.

The modules follow the source files. `Domain` holds the shared records.
`Text` holds the JavaScript string operations. `PrizeCatalog` is the
prize table. `WeightedDraw` and `ReelSequencer` cover the draw and the
reels. `EntrySaving` covers the save. `EmailShape`, `PhoneShape` and
`EntryForm` cover the form. `Dashboard` and `CsvExport` cover the admin
page. `ScreenFlow` is `App`. `Widget` ties one full visit together.

Three details of the code shape the timeline and the draw:

- The completion timer fires at 3200 ms, and the prize is reported
  500 ms after the save finishes.
- A new spin does not reset the reels. They keep the previous values
  until their timers fire.
- The fallback index 3 is kept only when `r` exceeds every running sum,
  which means `r > 100`.

A race that the source allows is recorded as
`ScreenFlow.LateReportAfterRestart`. The slot machine's timers survive
"Start Over". A prize report that arrives after a restart therefore opens
the results modal over the entry form, with no user stored.

## Model

| member | source | states |
|---|---|---|
| PrizeCatalog.CatalogueIds | src/App.tsx:15-51 | The catalogue has five prizes, and prize `i` has id `i + 1`, so the ids are distinct. |
| PrizeCatalog.ReelIconId | src/components/SlotMachine.tsx:127-131 | Any reel value leads to an id present in the icon table: `i + 1` for a catalogue index `i`, and 1 otherwise. |
| WeightedDraw.PrizeOddsFacts | src/components/SlotMachine.tsx:68-77 | The odds table has one positive weight per prize, row `k` names prize `k`, the running sums are 1, 3, 8, 98 and 100, and the total weight is 100. |
| WeightedDraw.RunningSumIsTotal | src/components/SlotMachine.tsx:77-88 | The loop's final running sum equals the total computed by `reduce`. |
| WeightedDraw.DrawIsFirstReach | src/components/SlotMachine.tsx:79-88 | The draw returns the index of the first row whose running sum is at least `r`, and every earlier running sum is below `r`. If no row reaches `r`, it returns the default index 3. |
| WeightedDraw.DrawBreaksWithinTotal | src/components/SlotMachine.tsx:80-88 | For `r` up to the total weight, the loop always breaks on some first-reaching row, so the fallback is never used. |
| WeightedDraw.DrawPrize | src/components/SlotMachine.tsx:76-88 | For every `r`, the result is a valid catalogue index. For `r <= 100`, `r` lies in the chosen prize's slice. For `r > 100`, the result is the default index 3. |
| WeightedDraw.SliceLengthIsWeight | src/components/SlotMachine.tsx:68-84 | Each prize's slice of `[0, 100]` is as long as its weight, and the slices are adjacent. |
| WeightedDraw.DrawPrizeIffSlice | src/components/SlotMachine.tsx:84 | For `0 <= r < 100`, the draw picks `i` exactly when `r` is in slice `i`. Every slice includes its upper end. |
| WeightedDraw.DrawPrizeExamples | src/components/SlotMachine.tsx:84 | Sample values: r = 0.5 and r = 1 give 0, r = 8 gives 2, r = 50 and r = 98 give 3, r = 99.9 gives 4, and r = 100.5 gives the default 3. |
| ReelSequencer.Schedule | src/components/SlotMachine.tsx:90-114 | A spin arms one stop timer per reel at 2000, 2500 and 3000 ms, at strictly increasing times, then a completion timer at 3200 ms. |
| ReelSequencer.Spin | src/components/SlotMachine.tsx:61-65 | While a spin is running, a press changes nothing and arms nothing. Otherwise the machine becomes busy, every reel starts moving, the reels keep their values, and the drawn winner's timers are armed. |
| ReelSequencer.Fire | src/components/SlotMachine.tsx:97-115 | A reel's timer stops only that reel and sets only that reel to the winner. The completion timer clears only the busy flag. |
| ReelSequencer.DueCount | src/components/SlotMachine.tsx:97-114 | The timers due by time `t` are exactly a prefix of the time-sorted list. |
| ReelSequencer.PrefixState | src/components/SlotMachine.tsx:97-115 | After the first `n` timers, reels below `n` show the winner and are still, the other reels are untouched and still moving, and the machine stays busy until the completion timer. |
| ReelSequencer.SpinTimeline | src/components/SlotMachine.tsx:91-115 | At time `t`, the machine is busy exactly while `t < 3200`. Reel `i` moves exactly while `t` is below its stop delay, and after that it shows the winner. From 3200 ms on, all three reels show the winner, none moves, and the winning glow is on. |
| ReelSequencer.SecondPressIgnored | src/components/SlotMachine.tsx:62 | Any press before the completion timer is ignored: the state is unchanged and no timers are armed. |
| EntrySaving.BuildEntry | src/components/SlotMachine.tsx:35-45 | The saved row copies the user's five fields and the prize's name and id. |
| EntrySaving.Save | src/components/SlotMachine.tsx:28-59 | With no client, nothing is attempted and the not-connected warning is logged. Otherwise the built row is attempted. It is stored only when the insert succeeds, which logs the success line. An error return or a raise is logged as an error carrying its message. |
| EntrySaving.Complete | src/components/SlotMachine.tsx:114-124 | The reported prize is `prizes[w]`, reported 500 ms after the save, and any attempted row carries id `w + 1` and that prize's name. |
| EntrySaving.ReportIndependentOfBackend | src/components/SlotMachine.tsx:118-123 | A missing client or a failed insert reports the same prize, after the same delay, as a successful save. |
| Text.BlankIffAllSpace | src/components/EntryForm.tsx:23-29 | `!s.trim()` holds exactly when every character of `s` is whitespace. |
| EmailShape.IsEmailIffLanguage | src/components/EntryForm.tsx:33 | The matcher accepts exactly the strings of the form run "@" run "." run, where each run is non-empty and contains no whitespace or '@'. |
| EmailShape.AcceptedHasOneAt | src/components/EntryForm.tsx:33 | Every accepted address contains exactly one '@'. |
| EmailShape.AcceptedNotBlank | src/components/EntryForm.tsx:31-33 | An accepted address is never blank, so the "required" check and the shape check never both reject it. |
| EmailShape.AcceptsTypicalAddress | src/components/EntryForm.tsx:33 | "fan@rays.com" is accepted. |
| EmailShape.RejectsLeadingSpace | src/components/EntryForm.tsx:33 | The shape check runs on the untrimmed value, so " fan@rays.com" is refused. |
| EmailShape.RejectsMissingTopLevel | src/components/EntryForm.tsx:33 | "fan@rays." is refused because the last run is empty. |
| PhoneShape.Parse | src/components/EntryForm.tsx:39 | Any reading that the left-to-right parser returns is well formed and writes back to the input string. |
| PhoneShape.ParseAssemble | src/components/EntryForm.tsx:39 | Parsing the written-out form of a well-formed reading gives that reading back, so each string has at most one reading. |
| PhoneShape.IsPhoneIffLanguage | src/components/EntryForm.tsx:39 | The matcher accepts exactly the strings the expression describes: optional "(", 3 digits, optional ")", optional separator from "-. ", 3 digits, optional separator, 4 digits. |
| PhoneShape.AcceptedHasTenDigits | src/components/EntryForm.tsx:39 | Every accepted phone number contains exactly ten digits. |
| PhoneShape.AcceptedNotBlank | src/components/EntryForm.tsx:37-39 | An accepted phone number is never blank. |
| PhoneShape.PlaceholderAccepted | src/components/EntryForm.tsx:173 | The placeholder "(555) 123-4567" is accepted, with every optional part present. |
| PhoneShape.ShortAndLongRefused | src/components/EntryForm.tsx:39 | A seven-digit number and an eleven-digit number are refused. |
| EntryForm.Validate | src/components/EntryForm.tsx:20-45 | A name field has an error exactly when it is blank. The e-mail and phone fields have an error exactly when they are blank or do not match their expression. Each field has at most one message, and "required" wins over "invalid". |
| EntryForm.NoErrorsIffNoKeys | src/components/EntryForm.tsx:44 | The error object has no keys exactly when none of the four fields has an error. |
| EntryForm.ValidIffAcceptable | src/components/EntryForm.tsx:20-45 | `validateForm` returns true exactly when both names have a non-whitespace character and the e-mail and phone match their expressions. |
| EntryForm.ValidFormShapes | src/components/EntryForm.tsx:31-41 | In a valid form, the e-mail has exactly one '@' and the phone has exactly ten digits. |
| EntryForm.HandleSubmit | src/components/EntryForm.tsx:47-52 | Submit replaces the shown errors with a fresh validation. It calls `onSubmit` with the form data exactly when the form is valid. |
| EntryForm.HandleChange | src/components/EntryForm.tsx:54-59 | A change updates only the named field and clears only that field's error. All other fields and errors are unchanged. |
| EntryForm.EditKeepsOtherVerdicts | src/components/EntryForm.tsx:54-58 | After an edit of one field, validating again gives every other field the same verdict and message as before. |
| EntryForm.EmptyFormShowsRequired | src/components/EntryForm.tsx:10-45 | Submitting the untouched form calls nothing and shows the four "required" messages. |
| Dashboard.CalculateStats | src/components/AdminDashboard.tsx:41-50 | `total` is the number of entries. `marketingOptIns` is the number of opted-in entries and is at most `total`. The number of prize types is at most `total`. |
| Dashboard.OptedInCounts | src/components/AdminDashboard.tsx:43 | The filtered list is as long as the number of opted-in entries, which is at most the number of entries. |
| Dashboard.BumpSpec | src/components/AdminDashboard.tsx:45 | One accumulator step raises the bumped key's count by one and leaves every other count alone. Keys stay distinct, and the sum rises by one. |
| Dashboard.BreakdownSpec | src/components/AdminDashboard.tsx:44-47 | The breakdown maps each distinct `prize_won` to its number of occurrences and lists only keys that occur, each once. Its counts are positive and sum to `total`, and it has at most `total` keys. |
| Dashboard.CatalogueKeysArePlain | src/components/AdminDashboard.tsx:44-47 | When every entry names a catalogue prize, as every row the widget saves does, no breakdown key is an `Object.prototype` name such as `__proto__` or `constructor`. For such data the association list behaves as the JavaScript object does. |
| Dashboard.Percent | src/components/AdminDashboard.tsx:137 | With `total` 0 the percentage is 0. Otherwise it is `100 * count / total` rounded half up, and it is at most 100 when `count <= total`. |
| Dashboard.EmptyDashboardShowsZero | src/components/AdminDashboard.tsx:164 | With no entries, the opt-in rate and every per-prize percentage are 0. |
| CsvExport.Lines | src/components/AdminDashboard.tsx:64-76 | The file has the header line, then exactly one row per participant in list order, so there are participants + 1 lines. |
| CsvExport.CsvLines | src/components/AdminDashboard.tsx:52-76 | If no value contains a line break, splitting the file on '\n' gives back the header and the rows, which is participants + 1 lines. |
| CsvExport.HeaderCells | src/components/AdminDashboard.tsx:53-65 | The header line splits into the eight column names. |
| CsvExport.RowCells | src/components/AdminDashboard.tsx:66-75 | If no value contains a comma, a row splits into eight cells. The sixth cell is "Yes" or "No" according to the opt-in, the seventh is the prize name in double quotes, and the eighth is the id's digits. |
| CsvExport.LocaleDateAddsField | src/components/AdminDashboard.tsx:66-75 | With an en-US date such as "10/10/2026, 5:32:00 PM" in the unquoted date cell, a row splits into nine cells on its commas and also reads as nine fields in a spreadsheet, one more than the eight column names. |
| CsvExport.QuotedRowFields | src/components/AdminDashboard.tsx:53-75 | A row that quotes every cell reads as exactly eight fields, one per column name, whatever commas the date or the typed values hold, as long as none holds a double quote. |
| ScreenFlow.EntrySubmit | src/App.tsx:59-62 | Stores the user and hides the form. The prize and the results flag are unchanged. |
| ScreenFlow.PrizeWon | src/App.tsx:64-67 | Stores the prize and shows the results. The form flag and the user are unchanged. |
| ScreenFlow.CloseResults | src/App.tsx:69-72 | Hides the results and clears the prize. The form flag and the user are unchanged. |
| ScreenFlow.Restart | src/App.tsx:74-79 | Returns exactly to the initial state: form shown, no user, no prize, no results. |
| ScreenFlow.RestartClearsScreen | src/App.tsx:74-79 | After a restart, only the entry form renders, and a second restart changes nothing. |
| ScreenFlow.FormAndMachineExclusive | src/App.tsx:137-160 | The slot machine renders exactly when the form is hidden and a user is present, so the form and the machine never render together. |
| ScreenFlow.ReachableConsistent | src/App.tsx:54-79 | In every state reachable from the initial one, the results flag is set exactly when a prize is stored. So the results modal renders exactly when `showResults` is set. |
| ScreenFlow.LateReportAfterRestart | src/App.tsx:74-79 | A prize report that arrives after "Start Over" opens the results modal over the entry form, with no user stored. |
| Widget.Visit | src/App.tsx:59-67 | A visit goes ahead exactly when the form is valid. It ends with the slot machine and the results on screen, the user stored, and the prize `prizes[w]` with id `w + 1` for the drawn index `w`. |
| Widget.VisitReels | src/components/SlotMachine.tsx:182 | From 3200 ms on, a visit's reels all show the drawn prize and the winning glow is on. |

## Left out

- Network and environment: the database client (`src/lib/supabase.ts`), the insert, and the dashboard's select. The backend is the parameter `EntrySaving.Backend`, and the stored rows are an input to the dashboard.
- `Math.random()` becomes the parameter `r`. Long-run frequencies are probabilistic and not stated. `WeightedDraw.SliceLengthIsWeight` shows instead that each prize's slice is as long as its weight.
- WeightedDraw.DrawPrize: `r` is an exact real. Floating-point rounding in `Math.random() * totalWeight` and in the comparison is not modelled.
- Real timer semantics and React state batching. Timers are a time-sorted list applied in order, and the save's latency before the 500 ms report delay is not modelled.
- Clock, user agent and locale: `new Date().toISOString()`, `navigator.userAgent` and `toLocaleString()` are parameters (`timestamp`, `userAgent`, `dateOf`).
- The Blob/URL download of the CSV (`src/components/AdminDashboard.tsx:78-84`) is browser I/O.
- Text.IsSpace: one fixed whitespace set serves both `trim()` and `\s`. It is the ASCII whitespace characters, NO-BREAK SPACE and the byte-order mark, which is a subset of the Unicode set JavaScript uses.
- Dashboard.Percent: computed over exact rationals as `floor((200 * count + total) / (2 * total))`, which is `Math.round` with no floating-point error.
- Dashboard.BreakdownSpec: the keys are kept in insertion order. JavaScript lists integer-like keys first, and that difference only affects display order.
- Dashboard.BreakdownSpec: the accumulator is a plain object `{}`, and the model treats every name as a fresh key. For a `prize_won` that is an `Object.prototype` name the source differs. A `__proto__` entry is never counted, so the counts sum to less than `total`. A `constructor`, `toString` or `valueOf` entry gets a string count built from the inherited function, and its percentage shows as `NaN`. `Dashboard.CatalogueKeysArePlain` shows this cannot happen for rows the widget saves.
- Dashboard.BumpSpec: the same gap, for one step. A bump of an `Object.prototype` name does not add one to a count in the source.
- CsvExport.CsvLines holds only for values with no line break. The export escapes nothing, so such a value adds lines.
- CsvExport.RowCells holds only when no cell contains a comma. The date cell is `toLocaleString()` output, which carries a comma in en-US and many other locales, so in those locales every data row has nine cells (see Findings). Typed values with commas add further cells.
- Domain.ParticipantEntry: `prize_id` is a natural number, which covers the stored ids 1 to 5.
- `src/components/ResultsModal.tsx` is presentation only: confetti and the grand-prize substring check.
- Image-load fallbacks in the DOM and all styling.
- Error messages are stored as the exact strings. The error object is a map, so a cleared error is a removed key rather than a key holding `undefined`.

## Findings

| source | as written | input that shows it | evidently intended | confidence | as-written member | corrected member |
|---|---|---|---|---|---|---|
| src/components/AdminDashboard.tsx:67 | The date cell is written unquoted from `toLocaleString()`. | An entry exported in the en-US locale, dated "10/10/2026, 5:32:00 PM": its row has nine fields under eight column names. | Each data row has one field per column name. | medium, not executed; depends on the browser's locale | CsvExport.LocaleDateAddsField | CsvExport.QuotedRowFields |

The rest of the export model keeps the row as the code writes it, since
the line structure proved by `CsvExport.CsvLines` does not depend on the
cell quoting.

