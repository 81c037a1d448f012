# Blood-pressure logger: reading analysis

A Dafny model of the pure logic of a blood-pressure logging web app.
Users log readings: systolic and diastolic pressure, an optional pulse,
a body position (seated, leaning or laying), an optional note and a
timestamp. The app derives four things from the list of readings:

- a category for one reading;
- windowed and all-time averages;
- a trend chart with a seven-point rolling average;
- a CSV export of a date range.

The model covers:

- **`BloodPressure`** (`bp.dfy`): the shared classifier.
  - It maps systolic and diastolic values to levels from "low" to "stage 3".
  - It combines the two levels into an overall level and a colour.
  - It builds the "Mixed" message, the long message and the `S: … | D: …` label.
  - A decoder for the label is the inverse of the label writer.
- **`Summary`** (`summary.dfy`): the summary view's statistics.
  - Windowed means over the readings since a cutoff.
  - The all-time means.
  - The view's own older classifier.
- **`Csv`** and **`Export`** (`csv.dfy`, `export.dfy`): the CSV export.
  - `escapeCSV`, the inclusive date-range filter, the oldest-first order, the eight-column rows and the file name.
  - A CSV reader, which the round-trip lemmas check the writer against, with RFC 4180 quoting and LF-terminated records. Reading an exported file back gives the header and every field's text. `escapeCSV` leaves a bare carriage return unquoted; the reader treats it as an ordinary character.
- **`TimeOrder`** (`sorting.dfy`): the stable ascending sort by timestamp that both the export and the chart use.
- **`Trends`** (`trends.dfy`): the trend page.
  - Averages and extremes.
  - The position breakdown.
  - The trailing rolling average and the chart series.
  - The category of the average reading.
- **`Dashboard`** (`dashboard.dfy`): the dashboard statistics. These are the highest and lowest reading by a first-wins reduction, the average pulse (or none) and the counts per position.
- **`ReadingsList`** (`readings_list.dfy`): the list's badge classifier and the position label.
- **`Home`** (`home.dfy`): the home page's add, update, delete, edit and toggle handlers over a state of readings, the reading being edited and form visibility.
- **`ReadingForm`** (`reading_form.dfy`): form validation, clearing, loading a reading for edit, and building the submitted reading. The date operations are a `Calendar` parameter: an instant's date text and time text, and the instant a date and time denote.
- **`FormClock`** (`form_clock.dfy`): the form's date operations for a fixed time-zone offset. It gives the calendar as written (UTC date, local time) and the corrected one (local date, local time), and the instant an unchanged edit saves under each.
- **`Signup`** (`signup.dfy`): the password checks done before registering.
- **Shared helpers:**
  - `Means`: sums, rounded means with `Math.round` semantics, minimum and maximum.
  - `Seqs`: map and filter.
  - `Strings`: search, JavaScript string order, integer text, `trim`.
  - `FullDates`: the `YYYY-MM-DD` date keys.
  - `Readings`: the record.
  - `Wrappers`: `Option`.

### Modelling choices

- Timestamps are integers (milliseconds since the epoch).
- Clock and locale calls are function parameters: the local date key `toLocaleDateString("en-CA")`, the clock time, and the chart's short date label.
- The current time is a parameter too. `calculateStats` takes the cutoff instant; the form takes the current instant.
- `Math.round(s / n)` for `n > 0` is `(2s + n) div 2n` with floor division. `RoundDiv` states this as a bound, and `RoundDivUnique` proves it is the only integer in that bound.
- A pulse is `Option<int>`. The source tests it for truthiness, so a pulse of 0 counts as missing (`HasPulse`).
- Optional export bounds are strings, with "" for a missing bound, exactly as the source tests them.
- JavaScript's string `<` is `Strings.LexLess`.

## Model

| member | source | states |
|---|---|---|
| BloodPressure.SystolicLevel | src/utils/bp.ts:42-50 | the level is the step of the breakpoints 90/120/130/140/160/180 that the value falls in |
| BloodPressure.DiastolicLevel | src/utils/bp.ts:52-60 | the level is the step of the breakpoints 60/80/85/90/100/110 that the value falls in |
| BloodPressure.LevelsMonotone | src/utils/bp.ts:42-60 | a higher value never gets a lower level, for either component |
| BloodPressure.Boundaries | src/utils/bp.ts:44-54 | the steps are closed below: 119 systolic and 79 diastolic are still optimal, 120 and 80 already normal |
| BloodPressure.OverallHighLevel | src/utils/bp.ts:62-78 | a stage is reported iff either component is a stage; it is the higher-ranked of the two component levels |
| BloodPressure.OverallHighSymmetric | src/utils/bp.ts:62-78 | the hypertension stage does not depend on which component is which |
| BloodPressure.OverallLevel | src/utils/bp.ts:90-101 | the overall level is one of the two component levels, the one first in the order stage, high-normal, low, normal, optimal |
| BloodPressure.MixedIff | src/utils/bp.ts:86-88 | the reading is "mixed" iff one component is low and the other is high-normal or a stage |
| BloodPressure.Stage3Dominates | src/utils/bp.ts:90-138 | systolic at least 180 or diastolic at least 110 is always stage 3 with the darkest colour, and mixed when the other component is low |
| BloodPressure.OptimalRange | src/utils/bp.ts:90-101 | inside 90-119 over 60-79 the overall level is optimal and the colour is the normal green |
| BloodPressure.BaseMessageNotMixed | src/utils/bp.ts:107-131 | no per-level message can be mistaken for the mixed message |
| BloodPressure.MessageShape | src/utils/bp.ts:107-139 | the message is the mixed sentence when the reading is mixed, else the overall level's sentence, followed by both components' long labels; it starts with the mixed sentence iff the reading is mixed |
| BloodPressure.GetBPCategory | src/utils/bp.ts:80-141 | the colour is the colour of whichever component level comes first in the precedence |
| BloodPressure.CategoryColor | src/utils/bp.ts:103-138 | the colour is the overall level's colour |
| BloodPressure.ShortLabelRoundTrip | src/utils/bp.ts:16-40 | every short label names exactly one level and holds no bar |
| BloodPressure.SplitLabelParts | src/utils/bp.ts:134 | a label built from two parts splits back into those parts |
| BloodPressure.DecodeLabelOf | src/utils/bp.ts:134 | decoding the label of two levels gives those two levels back |
| BloodPressure.LabelRoundTrip | src/utils/bp.ts:84-85 | the category label of any reading decodes to its systolic and diastolic levels |
| Csv.EscapeCsv | src/components/SummaryPage.tsx:50-57 | empty for undefined and ""; unchanged when no comma, quote or line feed; otherwise enclosed in quotes |
| Csv.ReadEscapedField | src/components/SummaryPage.tsx:50-57 | an escaped value read back by the reader (RFC 4180 quoting, LF records) gives its text and stops at the next separator |
| Csv.ReadLine | src/components/SummaryPage.tsx:105 | a comma-joined line of escaped values reads back as the values' texts |
| Csv.ReadDocument | src/components/SummaryPage.tsx:108 | lines joined by line feeds read back as every record |
| Export.FilterByRange | src/components/SummaryPage.tsx:64-73 | without bounds, all readings; otherwise every reading whose date key is at or after start and at or before end, as often as it occurs in the input, and no other reading |
| Export.FilterByRangeAppend | src/components/SummaryPage.tsx:64-73 | the filter keeps input order: filtering a concatenation is concatenating the filtered parts |
| Export.ReversedRangeKeepsNothing | src/components/SummaryPage.tsx:66-72 | an end bound before the start bound exports no reading |
| Export.SingleDayRange | src/components/SummaryPage.tsx:69-70 | a range from a day to itself keeps exactly that day |
| Export.RangeIsChronological | src/components/SummaryPage.tsx:68-70 | on `YYYY-MM-DD` keys the string comparison is the calendar comparison |
| FullDates.StringOrderIsChronological | src/components/SummaryPage.tsx:69-70 | two date keys compare as strings exactly as their year, month and day compare |
| Export.ExportOrder | src/components/SummaryPage.tsx:88-91 | the exported readings are a permutation of the filtered ones, oldest first, same-instant readings in input order |
| Export.HeaderLine | src/components/SummaryPage.tsx:75-86 | the header joined plainly is the same line as the header escaped |
| Export.ExportRoundTrip | src/components/SummaryPage.tsx:86-108 | reading the file back gives the header, then each exported reading's eight field texts in export order |
| Export.ExportShape | src/components/SummaryPage.tsx:86-106 | one record per exported reading plus the header, eight fields each |
| Export.RowFields | src/components/SummaryPage.tsx:94-104 | the id comes first; the pulse field is empty iff there is no truthy pulse, and otherwise parses back to the pulse; a missing note is empty |
| Export.Row | src/components/SummaryPage.tsx:94-104 | eight values: the pressures as numbers, an empty pulse cell iff the pulse is missing or 0, an empty note cell for a missing note |
| Export.ExportCsv | src/components/SummaryPage.tsx:75-108 | the file starts with the header line, and is exactly that line when no reading is in range |
| Export.Filename | src/components/SummaryPage.tsx:114-119 | the name starts with `bp-readings-` and the day and ends in `.csv` |
| Export.FilenameShape | src/components/SummaryPage.tsx:114-119 | the name starts with `bp-readings-` and the day, ends in `.csv`, and has a range part iff a bound is given |
| Export.FilenameDefaults | src/components/SummaryPage.tsx:114-119 | the whole name for every combination of bounds: `bp-readings-<day>.csv` without bounds, `bp-readings-<day>_<start>_to_<end>.csv` with both, and the word "start" or "end" in place of a single missing bound |
| TimeOrder.SortByTime | src/components/SummaryPage.tsx:89-91 | the stable sort: same length, a permutation, ascending, and same-instant readings in input order |
| TimeOrder.InsertSorted | src/components/SummaryPage.tsx:89-91 | inserting into an ascending list keeps it ascending |
| TimeOrder.StableSortUnique | src/components/TrendsPage.tsx:142-144 | two ascending orders that agree instant by instant are equal, so any stable sort gives the same list |
| TimeOrder.SortSorted | src/components/TrendsPage.tsx:142-144 | an already ascending list is left unchanged |
| Summary.CalculateStats | src/components/SummaryPage.tsx:125-160 | null iff no reading is at or after the cutoff; otherwise the count is positive and at most the number of readings |
| Summary.AllTimeStats | src/components/SummaryPage.tsx:230-253 | the count is the number of readings; an empty list gives zeros |
| Summary.WindowMeansBetween | src/components/SummaryPage.tsx:143-153 | the windowed means lie within any bounds that hold for every reading in the window |
| Summary.WindowMeansWithinExtremes | src/components/SummaryPage.tsx:143-153 | the windowed means lie between the window's smallest and largest value |
| Summary.PulseZeroIff | src/components/SummaryPage.tsx:148-157 | with non-negative pulses, the pulse statistic is 0 iff no reading in the list has a truthy pulse |
| Summary.AllTimeIsWidestWindow | src/components/SummaryPage.tsx:137-160 | a window that covers every reading gives the all-time statistics |
| Summary.WiderWindowCountsMore | src/components/SummaryPage.tsx:134-139 | an earlier cutoff never counts fewer readings |
| Summary.StatsPermutation | src/components/SummaryPage.tsx:137-157 | windowed and all-time statistics do not depend on the order of the readings |
| Summary.SummaryBand | src/components/SummaryPage.tsx:162-221 | the crisis branch iff systolic ≥ 180 or diastolic ≥ 120; crisis or stage 2 iff systolic ≥ 140 or diastolic ≥ 90; stage 1 iff below both stage-2 thresholds with systolic ≥ 130 or diastolic ≥ 82; elevated iff systolic 120-129 over under 81; the normal branch iff under 120 over under 81 |
| Summary.SummaryCategory | src/components/SummaryPage.tsx:162-221 | "Normal" iff under 120 over under 81, or under 130 over exactly 81; "Hypertensive Crisis" iff systolic ≥ 180 or diastolic ≥ 120; "High Blood Pressure (Stage 2)" iff below crisis with systolic ≥ 140 or diastolic ≥ 90; "High Blood Pressure (Stage 1)" iff below stage 2 with systolic ≥ 130 or diastolic ≥ 82; "Elevated" iff systolic 120-129 over under 81 |
| Summary.UnmatchedIff | src/components/SummaryPage.tsx:204-220 | the fallback branch is taken iff systolic < 130 and diastolic is 81, and then it gives the normal category |
| Summary.CrisisFirst | src/components/SummaryPage.tsx:166-173 | systolic at least 180 or diastolic at least 120 is always the crisis category |
| Summary.AgreesWithSharedClassifier | src/components/SummaryPage.tsx:166-181 | the view's crisis or stage-2 branch is taken iff the shared classifier finds a stage; its crisis is the shared stage 3 |
| Means.RoundDiv | src/components/SummaryPage.tsx:152-153 | the rounded quotient is within half a unit of the exact one, rounding halves upwards |
| Means.RoundDivUnique | src/components/SummaryPage.tsx:152-153 | the half-unit bound determines the rounded quotient |
| Means.MeanBetween | src/components/TrendsPage.tsx:63-68 | the rounded mean lies within any bounds that hold for every value |
| Means.MeanPermutation | src/components/TrendsPage.tsx:63-68 | the rounded mean depends only on the multiset of values |
| Means.SumPermutation | src/components/DashboardPage.tsx:17-22 | the sum depends only on the multiset of values |
| Trends.CalculateTrends | src/components/TrendsPage.tsx:37-80 | zeros for no readings; otherwise lowest ≤ average ≤ highest, the extremes are values that occur, and every value lies between them |
| Trends.TrendsMatchAllTime | src/components/TrendsPage.tsx:58-74 | the trend averages are the summary's all-time means |
| Trends.TrendsPermutation | src/components/TrendsPage.tsx:37-80 | the trend figures do not depend on the order of the readings |
| Trends.BodyPositionStats | src/components/TrendsPage.tsx:82-92 | the three position counts add up to the number of readings |
| Readings.PositionCountsSum | src/components/TrendsPage.tsx:88-90 | every reading has exactly one of the three positions |
| Trends.Window | src/components/TrendsPage.tsx:94-96 | the slice is non-empty, at most the window long, and ends at the index |
| Trends.RollingAverage | src/components/TrendsPage.tsx:94-99 | the rolling average lies between the smallest and largest value of its slice |
| Trends.RollingOwnValue | src/components/TrendsPage.tsx:94-99 | at the first index, or with window 1, the rolling average is the value itself |
| Trends.RollingIsTrailing | src/components/TrendsPage.tsx:94-99 | later values never change an earlier rolling average |
| Trends.RollingConstant | src/components/TrendsPage.tsx:94-99 | a constant series has itself as rolling average |
| Trends.ChartData | src/components/TrendsPage.tsx:147-153 | one chart point per reading |
| Trends.ChartFollowsTimeOrder | src/components/TrendsPage.tsx:142-153 | the points are the readings in stable ascending time order, with their own values and labels |
| Trends.ChartOfSortedInput | src/components/TrendsPage.tsx:142-153 | for readings already in time order, point i shows reading i |
| Trends.ChartAverages | src/components/TrendsPage.tsx:145-152 | each point's systolic and diastolic averages are the seven-point trailing averages of the time-sorted series, between that window's extremes; the first point's averages are its own values |
| Trends.AverageCategory | src/components/TrendsPage.tsx:138-141 | a category exists iff there are readings |
| Trends.AverageCategoryLevels | src/components/TrendsPage.tsx:136-141 | the category label decodes to the levels of the averages, which are at least those of the lowest values |
| Dashboard.ReduceBest | src/components/DashboardPage.tsx:24-30 | the reduction returns a reading of the list whose key no reading exceeds |
| Dashboard.ReduceBestIsFirst | src/components/DashboardPage.tsx:24-30 | with the strict comparison, the reduction returns the first reading with the best key |
| Dashboard.Highest | src/components/DashboardPage.tsx:24-26 | a reading of the list with the largest systolic value |
| Dashboard.Lowest | src/components/DashboardPage.tsx:28-30 | a reading of the list with the smallest systolic value |
| Dashboard.FirstOccurrenceWins | src/components/DashboardPage.tsx:24-30 | no reading before the highest (lowest) has the same systolic value |
| Dashboard.AveragePulse | src/components/DashboardPage.tsx:32-35 | null iff no reading has a truthy pulse |
| Dashboard.CountPositions | src/components/DashboardPage.tsx:38-41 | every position in the record has a positive count |
| Dashboard.CountPositionsAgree | src/components/DashboardPage.tsx:38-41 | the map holds a position iff some reading has it, with that position's count |
| Dashboard.Stats | src/components/DashboardPage.tsx:12-52 | null iff there are no readings; the total is the number of readings |
| Dashboard.PositionCountsTotal | src/components/DashboardPage.tsx:38-50 | the position counts add up to the total |
| Dashboard.AgreesWithTrends | src/components/DashboardPage.tsx:17-35 | the dashboard averages and extremes equal the trend page's, and the pulse average equals the summary's |
| ReadingsList.ListLowBands | src/components/ReadingsList.tsx:57-60 | "Normal" iff under 120 and 80; "Elevated" iff 120-129 over less than 80 |
| ReadingsList.ListCrisisIff | src/components/ReadingsList.tsx:61-67 | as written, "Crisis" iff both systolic ≥ 180 and diastolic ≥ 120 |
| ReadingsList.ListCrisisCounterexample | src/components/ReadingsList.tsx:61-63 | as written, 200 over 85 is the lighter "High BP" badge, while the summary view calls it a crisis |
| ReadingsList.SeverityMonotone | src/components/ReadingsList.tsx:53-68 | higher values never get a milder badge, as written and corrected |
| ReadingsList.ListCategoryCorrected | src/components/ReadingsList.tsx:53-67 | corrected, "Crisis" iff either value reaches its crisis threshold, dark red or worse iff either reaches stage 2, and "Normal" iff both are below 120/80 |
| ReadingsList.ListCategory | src/components/ReadingsList.tsx:53-67 | the badge as written is never more severe than the corrected badge; as written the dark red (#dc2626) or crisis badge needs both values at or above 140/90, and the lighter "High BP" (#ef4444) is given exactly when the reading is past the elevated band but one value is below 140/90 |
| ReadingsList.CorrectedAgreesWithSummary | src/components/ReadingsList.tsx:61-67 | the corrected crisis and stage-2 badges agree with the summary view's branches at 180/120 and 140/90 |
| ReadingsList.AgreeUnlessSplit | src/components/ReadingsList.tsx:61-64 | both versions agree unless exactly one value crosses a threshold |
| ReadingsList.PositionLabel | src/components/ReadingsList.tsx:49-51 | same length, only the first character changed, and that one is the original letter upper-cased: not a lower-case letter, and the same letter once lower-cased |
| ReadingsList.PositionLabelIdempotent | src/components/ReadingsList.tsx:49-51 | capitalising twice is capitalising once |
| ReadingsList.PositionLabels | src/components/ReadingsList.tsx:49-51 | the three positions read "Seated", "Leaning" and "Laying" |
| Home.AddReading | src/components/HomePage.tsx:16-19 | the new reading goes first, the rest is unchanged, and the form closes |
| Home.UpdateReading | src/components/HomePage.tsx:21-27 | readings with the updated id are replaced, the others kept in place; editing ends and the form closes |
| Home.DeleteReading | src/components/HomePage.tsx:29-37 | unconfirmed changes nothing; confirmed removes every reading with the id and keeps every other reading as many times as it occurred; editing ends only if that reading was being edited |
| Home.DeleteDistributes | src/components/HomePage.tsx:31 | deleting from two joined lists is deleting from each and joining, so the kept readings stay in order |
| Home.Edit | src/components/HomePage.tsx:39-43 | the reading goes into the form, which opens; the list is unchanged |
| Home.CancelEdit | src/components/HomePage.tsx:45-48 | nothing is being edited and the form closes; the list is unchanged |
| Home.Submit | src/components/HomePage.tsx:69-73 | without an edited reading the submitted one is put first; with one, readings with its id are replaced in place and editing ends; the form closes |
| Home.AddClick | src/components/HomePage.tsx:50-56 | toggles the form and drops any reading being edited |
| Home.DeleteUndoesAdd | src/components/HomePage.tsx:16-37 | deleting a freshly added reading with a new id restores the list |
| Home.UpdateWithoutMatch | src/components/HomePage.tsx:21-24 | an update with an unknown id changes no reading |
| Home.UpdateIdempotent | src/components/HomePage.tsx:21-24 | updating twice with the same reading is updating once |
| Home.DeleteAfterUpdate | src/components/HomePage.tsx:21-31 | deleting after an update with the same id is deleting alone |
| Home.AddClickTwice | src/components/HomePage.tsx:50-56 | two clicks restore form visibility and leave nothing being edited |
| Home.SubmitWhileEditing | src/components/HomePage.tsx:69-73 | submitting while a reading is being edited is an update |
| Home.UpdateAsWrittenOverwritesAll | src/components/HomePage.tsx:21-24 | as written, an update replaces every reading with the updated one |
| Home.DeleteAsWrittenKeepsAll | src/components/HomePage.tsx:29-35 | as written, a confirmed delete changes nothing |
| Home.UpdateCounterexample | src/components/HomePage.tsx:21-24 | for a two-reading list the as-written update gives two copies, the corrected one replaces only the match |
| ReadingForm.Validate | src/components/ReadingForm.tsx:72-88 | a field has an error iff it is blank, not a whole number, or not positive; the error is that field's message |
| ReadingForm.ClearForm | src/components/ReadingForm.tsx:34-70 | the date and time texts of the current instant, blank numbers and pulse, seated, empty note, no errors |
| ReadingForm.LoadReading | src/components/ReadingForm.tsx:46-55 | the date and time texts of the reading's instant; the pressures are accepted iff positive; the pulse field is empty iff the pulse is missing or 0; position and note carried over |
| ReadingForm.NoteOf | src/components/ReadingForm.tsx:104 | no note iff the trimmed text is empty, else the trimmed text |
| Strings.TrimIdempotent | src/components/ReadingForm.tsx:104 | trimming a trimmed note changes nothing |
| ReadingForm.Submit | src/components/ReadingForm.tsx:90-112 | a reading is submitted iff both pressures are accepted and the date and time denote an instant, which becomes its timestamp |
| ReadingForm.InvalidSubmitsNothing | src/components/ReadingForm.tsx:93 | a rejected form submits nothing and shows an error |
| ReadingForm.BadDateSubmitsNothing | src/components/ReadingForm.tsx:86-96 | valid numbers with a date and time that denote no instant submit nothing; the errors are cleared and the fields kept |
| ReadingForm.SubmittedReading | src/components/ReadingForm.tsx:96-106 | the reading carries the entered values, the entered pulse or none, the trimmed note or none, the instant of the date and time, and the edited reading's id when non-empty, else a fresh one |
| ReadingForm.FormAfterSubmit | src/components/ReadingForm.tsx:108-111 | after adding, the form is cleared; after editing, it keeps its fields |
| ReadingForm.EditRoundTrip | src/components/ReadingForm.tsx:46-106 | loading a stored reading and submitting it unchanged gives it back in every field but the timestamp, which is the instant the loaded texts denote; nothing when they denote none |
| FormClock.CorrectedReloadTruncates | src/components/ReadingForm.tsx:48-96 | local date plus local time denote the original instant cut to its minute, equal to it iff it has no seconds |
| FormClock.AsWrittenReloadShift | src/components/ReadingForm.tsx:48-96 | UTC date plus local time denote that minute shifted by the difference of UTC and local day: at most one day, back east of UTC and forward west of it, none iff the days agree |
| FormClock.SourceEditReload | src/components/ReadingForm.tsx:46-106 | as written, an unchanged edit keeps every field and saves the shifted instant |
| FormClock.LocalEditReload | src/components/ReadingForm.tsx:46-106 | with the local date, an unchanged edit keeps every field and the minute, and a whole-minute reading comes back exactly |
| FormClock.ClearedFormInstant | src/components/ReadingForm.tsx:34-96 | the defaults of a cleared form denote the current minute with the local date, and the shifted one with the UTC date |
| FormClock.EditShiftsDayBack | src/components/ReadingForm.tsx:48-96 | at UTC+05:30 a reading at 00:10 local on 2 January is saved a day earlier by an unchanged edit |
| Strings.IntToStringRoundTrip | src/components/ReadingForm.tsx:51-53 | an integer's text parses back to it |
| Signup.SubmitSignup | src/components/SignupPage.tsx:17-34 | registration goes ahead iff the passwords match and have at least 6 characters; a rejection carries a message |
| Signup.ErrorAfterSubmit | src/components/SignupPage.tsx:19-29 | the error is empty after a submit iff registration goes ahead |
| Signup.MismatchFirst | src/components/SignupPage.tsx:21-24 | mismatched passwords report the mismatch, whatever their length |
| Signup.TooShortIff | src/components/SignupPage.tsx:21-29 | the length message appears iff the passwords match and are shorter than 6 |
| Signup.StaleErrorCleared | src/components/SignupPage.tsx:19 | the previous error never shows through |

## Left out

- Rendering, styles, icons, the tooltip and the display date and time formatters. They only lay out values.
- Clock and locale calls are parameters: `new Date()`, `toLocaleDateString`, `toLocaleTimeString`, and the cutoff arithmetic `setDate(getDate() - days)`.
- FormClock: the local time zone is a fixed offset in minutes; daylight-saving changes are not modelled. How day numbers and minutes are written and read back (`Notation`) is a parameter, assumed faithful.
- Parsing ISO timestamp strings into instants: a timestamp is already an integer.
- The file download: Blob, object URL and link click. The export ends at the file's content and name.
- `window.confirm` is the `confirmed` argument of `Home.DeleteReading`. `window.scrollTo` has no state effect and is left out.
- `generateId` is the `freshId` argument of `ReadingForm.Submit`. The exception that `toISOString` throws on an invalid date is modelled as submitting nothing.
- `Number(...)` on form fields is abstracted as `Blank`, `Whole(n)` or `NotWhole`. A non-numeric pulse field (giving `NaN`) is not modelled; a pulse field is either empty or a number.
- Floating point: pressure and pulse values are integers; `Math.round` is modelled exactly for integer sums.
- Strings are sequences of characters. The length of a password with characters outside the Basic Multilingual Plane, which JavaScript counts in UTF-16 units, is not modelled.
- ReadingsList.PositionLabel: `toUpperCase` is modelled on ASCII letters only; the three positions are ASCII.
- The registration call, its loading flag and its error message: network I/O.
- REST persistence of readings and profile scoping belong to the hosting app, outside these components.
- Trends.RollingAverage: requires an index inside the series and a window of at least 1. The page only calls it with window 7 on indexes of the series.
- The export does not refuse an empty range. The code writes a file with only the header line, and the model does the same.

## Findings

| source | as written | input that shows it | evidently intended | confidence | as-written member | corrected member |
|---|---|---|---|---|---|---|
| src/components/HomePage.tsx:21-24 | the update compares `r.id`, a field the `Reading` record does not declare (it has `_id`), so both sides are undefined and every reading is replaced | a list of two readings and an update of the first | replace only the reading with the same id | not executed; HomePage is not rendered by the app shell, which has its own handlers keyed on `_id` | Home.UpdateCounterexample | Home.UpdateReading |
| src/components/HomePage.tsx:29-35 | the delete filter keeps readings whose `r.id` (undefined) differs from the given id, so nothing is removed | any confirmed delete of an existing reading | remove the reading with that id | not executed; same remark | Home.DeleteAsWrittenKeepsAll | Home.DeleteReading |
| src/components/ReadingsList.tsx:61-63 | the stage-2 and crisis tests use `||` on "below" tests, so both values must exceed a threshold to reach the harsher badge | 200 over 85 gets "High BP" (#ef4444), while the summary view says "Hypertensive Crisis" | either value reaching a threshold raises the badge, as the other classifiers do | not executed | ReadingsList.ListCrisisCounterexample | ReadingsList.ListCategoryCorrected |
| src/components/ReadingForm.tsx:46-50 | the edit form shows the UTC date (`toISOString`) next to the local time (`toTimeString`), and submit (line 96) reads both as local time | at UTC+05:30, a reading taken at 00:10 on 2 January (18:40 UTC on 1 January), opened for edit and saved unchanged | show the local date, so that an unchanged edit keeps the reading's day and minute | not executed; the add form's defaults (lines 34-38) have the same shift | FormClock.EditShiftsDayBack | FormClock.LocalEditReload |
