# RosApp analytics, modelled in Dafny

RosApp is a personal activity journal. Each activity is stored as a row in one
of five tables: `libros`, `peliculas`, `deporte`, `conciertos` and `ocio`. The
`App` component in `src/App.tsx` fetches every table and tags each row with
the table it came from (`categoria_id`). It then keeps the rows whose table is
in the category filter list and whose date lies in the time window
(`registrosFiltrados`). Three dashboard views are built from those rows:

- the per-table summary (`statsKPI`);
- the single-category breakdown (`statsDetalladas`);
- the monthly evolution chart (`datosEvolucion`).

Around this sit the PIN keypad in front of the app, two list toggles, the
date formatter and the CSV export.

In the component as it stands, nothing rendered changes the filter: no
element calls `toggleFiltroCat` or sets the time window. So the filter keeps
its initial state, all five tables and "Todo" (lines 36-37). Likewise no
element calls `toggleEtiqueta`, and `statsDetalladas` is computed but not
shown. The model states these operations for every input, as the
component defines them.

This project models that logic as pure Dafny functions over `seq<Record>`:

| module | file | models |
|---|---|---|
| `Records` | records.dfy | the row shape, the five tables, per-table counting |
| `Sequences` | sequences.dfy | order-preserving subsequences, and the stable insertion sort behind both sorted lists |
| `Filtering` | filtering.dfy | `registrosFiltrados` |
| `Summary` | summary.dfy | `statsKPI` |
| `Breakdown` | breakdown.dfy | `statsDetalladas` |
| `Evolution` | evolution.dfy | `datosEvolucion` |
| `Dashboard` | dashboard.dfy | the views composed with the filter |
| `Toggles` | toggles.dfy | `toggleFiltroCat`, `toggleEtiqueta` |
| `Keypad` | keypad.dfy | `manejarTecla` and the clear keys |
| `Dates` | dates.dfy | `formatearFecha` and the `split` it relies on |
| `Csv` | csv.dfy | the lines `exportarCSV` builds, and a reader for them |
| `History` | history.dfy | the tag, concatenate and sort step of `cargarHistorial` |

Dates are given, not parsed. A row carries its `fecha` text and an
`Option<Stamp>`. A `Stamp` holds the epoch milliseconds and the month index
that `getMonth()` returns. `None` stands for a date that does not parse: every
comparison involving it is false, and its month equals no index. The current
time `now` and the current month `currentMonth` are parameters.

Notes on behaviour:

- The evolution series is cut at the current month (`slice(0, month + 1)`).
  It is not trimmed back to the last month that has data.
- There is no rating average anywhere in the code, so none is modelled.
- A row whose date does not parse is not dropped everywhere. It passes the
  filter under "Todo", and also under any window label the code does not
  recognise.
- Both "C" and "⌫" clear the whole PIN buffer. Neither removes only one
  digit.

## Model

| member | source | states |
|---|---|---|
| Filtering.FilterRecords | src/App.tsx:135-142 | The filtered rows are an order-preserving subsequence of the fetched rows. A row is kept iff it passes the category and window test, and every copy of a passing row is kept. Every kept row's table is selected. |
| Filtering.WithinDays | src/App.tsx:138-140 | No contract: the date check of the two windows. The row is dated and at most the given number of days old; an unparseable date fails it. |
| Filtering.Passes | src/App.tsx:136-141 | No contract: the filter callback, branch for branch. A row passes when its table is selected and, for the two date windows only, its age is at most 7 or 30 days; an unparseable date fails both. |
| Filtering.FilterIgnoringDatesIsCategoryFilter | src/App.tsx:137-141 | Under "Todo" or an unrecognised window label, the filter is exactly the category filter, whatever the dates. |
| Filtering.FilterMonotone | src/App.tsx:135-142 | A weaker pass test keeps a supersequence of the rows. |
| Filtering.WindowsNest | src/App.tsx:138-141 | The last-7-days rows are a subsequence of the last-month rows, which are a subsequence of the "Todo" rows. |
| Filtering.FutureRowPassesEveryWindow | src/App.tsx:138-140 | A row of a selected table dated at or after now (negative age) passes every window. |
| Filtering.UndatedRowPassesOnlyWithoutDateCheck | src/App.tsx:136-141 | A row whose date does not parse passes iff its table is selected and the window does not date-check. |
| Records.CountCategory | src/App.tsx:145 | A table's count is at most the number of rows. It is zero iff no row belongs to that table. |
| Records.CountCategoryAppend | src/App.tsx:145 | Per-table counts add up over concatenation. |
| Records.CountsAddUp | src/App.tsx:125 | Every row carries one of the five table names, so the five per-table counts sum to the number of rows. |
| Summary.StatsKpi | src/App.tsx:144-148 | `resumen` has five slices in the fixed table order, zero counts included. Each slice holds its table's row count. `total` is the number of filtered rows and equals the sum of the slices. `tiempoDeporte` is the exercise total. |
| Summary.Minutes | src/App.tsx:147 | No contract: one row's duration as a number, with a missing or non-numeric duration counting as 0. |
| Summary.ExerciseMinutes | src/App.tsx:147 | The exercise total is 0 when there is no `deporte` row. It is non-negative when every `deporte` duration is. |
| Summary.ExerciseMinutesAppend | src/App.tsx:147 | The exercise total adds up over concatenation, one row's contribution at a time. |
| Breakdown.Bump | src/App.tsx:155-157 | Incrementing a key raises its count by one and leaves every other count alone. The key set gains the key, keys stay distinct, and the sum grows by one. |
| Breakdown.Contributions | src/App.tsx:155-157 | No contract: the keys one row adds. The sport type for `deporte`, the leisure type for `ocio`, and otherwise each tag, also when the type field is empty. |
| Breakdown.Tally | src/App.tsx:153-158 | The frequency map has distinct keys. Each count equals the key's number of occurrences, and every count is at least 1. The key set is the set of contributed keys, and the counts sum to the number of contributions. |
| Sequences.InsertBy | src/App.tsx:159 | Inserting into a list sorted by a total preorder keeps it sorted, and the result is a permutation of the input plus the element. The element lands before every element it is tied with. |
| Sequences.SortBy | src/App.tsx:159 | The sort yields a permutation of its input, sorted by the given total preorder, and stable: the elements tied with any given element keep their input order. The breakdown sorts by count and the history by date with it. |
| Breakdown.SortByCount | src/App.tsx:159 | The result is sorted by count, non-increasing, and is a permutation of the map's entries. It keeps the key set, distinct keys and the count sum. |
| Breakdown.InsertKeys | src/App.tsx:159 | Inserting keeps the key set, distinct keys and the count sum. |
| Breakdown.SortKeys | src/App.tsx:159 | Sorting keeps the key set, distinct keys and the count sum. |
| Breakdown.StatsDetail | src/App.tsx:150-160 | The breakdown is absent iff the number of selected categories is not 1. Otherwise it is sorted by count, non-increasing, with distinct keys. Each entry's count is at least 1 and equals the key's number of contributions: the sport type for `deporte`, the leisure type for `ocio`, and each tag otherwise (also when the type field is empty). Its keys are exactly the contributed keys. |
| Evolution.MonthCount | src/App.tsx:166 | A month's count for a table never exceeds the number of rows. |
| Evolution.EvolutionSeries | src/App.tsx:162-169 | There are exactly currentMonth + 1 slots, between 1 and 12. Slot i is labelled with the i-th month name and has one series per selected category, in selection order. Each series counts the rows of that table whose month index is i, in any year. |
| Evolution.MonthCountAppend | src/App.tsx:166 | Month counts add up over concatenation. |
| Evolution.EvolutionIgnoresLaterRows | src/App.tsx:166-168 | Inserting a row anywhere changes no slot when the row has no date or is dated in a month after the current one. |
| Evolution.CountUpToStep | src/App.tsx:166 | Widening the month range by one month adds exactly that month's rows. |
| Evolution.CountUpToAtMostCount | src/App.tsx:145-166 | A table's rows dated up to a month are among its rows. From December on they are all of its rows, when every row is dated. |
| Evolution.SeriesTotalCountsUpToCurrentMonth | src/App.tsx:162-168 | A category's line sums to its rows dated in a month up to the current one. Rows of later months are never counted. |
| Dashboard.AllWindowTotalCountsSelectedTables | src/App.tsx:135-146 | Under "Todo" the summary total is the number of rows of the selected tables. |
| Dashboard.UnselectedTablesCountZero | src/App.tsx:135-147 | A table that is not selected keeps its summary slice, with count 0. With `deporte` unselected the exercise total is 0. |
| Dashboard.EvolutionWithinSummary | src/App.tsx:144-169 | Over the same filtered rows, a selected category's evolution line never exceeds its summary slice. In December, with every row dated, the two are equal. |
| Toggles.Without | src/App.tsx:112-117 | Filtering an element out removes every copy of it and keeps every copy of every other element, in order. A list without the element is unchanged. |
| Toggles.Toggle | src/App.tsx:112-117 | Toggling flips the element's membership and keeps every copy of every other element. Removing yields a subsequence of the list. Adding appends at the end and leaves the list as a prefix. |
| Toggles.WithoutKeepsNoDuplicates | src/App.tsx:112-117 | Removing keeps a duplicate-free list duplicate-free. |
| Toggles.ToggleKeepsNoDuplicates | src/App.tsx:112-117 | Toggling keeps a duplicate-free list duplicate-free. |
| Toggles.ToggleKeepsOthersInOrder | src/App.tsx:112-117 | With the toggled element struck out, the list is as before: the other elements and their relative order are unchanged. |
| Toggles.WithoutIdempotent | src/App.tsx:112-117 | Removing an element twice is removing it once. |
| Toggles.WithoutAppend | src/App.tsx:112-117 | Removing an element after appending it is removing it from the original list. |
| Toggles.ToggleTwiceRestores | src/App.tsx:112-117 | Toggling an absent element twice restores the list. |
| Toggles.ToggleCategory | src/App.tsx:200-202 | Toggling a category in the filter list flips the membership of exactly that category and keeps every copy of the others. It keeps the list duplicate-free. |
| Toggles.ToggleTag | src/App.tsx:112-117 | Toggling a tag in the form data flips the membership of exactly that tag and keeps every copy of the others. It keeps the list duplicate-free. |
| Keypad.HandleKey | src/App.tsx:103-110 | With five keys in the buffer, a key press does nothing. Otherwise access is granted iff it already was or the extended buffer is "28010". Up to four keys are collected. A fifth key leaves the code in the buffer or empties it. |
| Keypad.PressKey | src/App.tsx:217 | No contract: the keypad button handler. "C" and "⌫" empty the buffer and keep the access flag; every other key goes to `HandleKey`. |
| Keypad.PressKeyKeepsConsistent | src/App.tsx:103-110 | While access is denied, the buffer never holds more than four keys, whatever key is pressed. |
| Keypad.ShortEntryCollects | src/App.tsx:104-106 | Up to four digits from an empty buffer are collected as typed. |
| Keypad.FiveDigitsFromEmpty | src/App.tsx:103-110 | Five digits from an empty buffer grant access when they are the code. Otherwise they leave the buffer empty and access unchanged. |
| Keypad.PressAllAppend | src/App.tsx:217 | Pressing one sequence of keys and then another is pressing their concatenation. |
| Keypad.ClearThenCodeGrants | src/App.tsx:216-217 | From any state, "C" followed by "28010" grants access. |
| Keypad.EnterKeys | src/App.tsx:103-110 | Running the keypad over any key sequence gives the state of pressing those keys. While access is denied, the buffer holds at most four keys. |
| Dates.Split | src/App.tsx:99 | `split` always returns at least one part, and no part contains the separator. |
| Dates.JoinSplit | src/App.tsx:99 | Joining the parts of a split gives back the string. |
| Dates.SplitJoin | src/App.tsx:99 | Splitting joined separator-free parts gives back the parts. |
| Dates.SplitPlain | src/App.tsx:99 | A string without the separator splits into itself alone. |
| Dates.FormatDate | src/App.tsx:97-101 | The formatted date is empty iff the stored one is. |
| Dates.FormatIsoDate | src/App.tsx:97-101 | `YYYY-MM-DD` is shown as `DD/MM/YYYY`. |
| Dates.FormatDateWithoutDash | src/App.tsx:99-100 | A non-empty date without a dash is shown with two `undefined` fields. |
| Dates.FormatDateRoundTrip | src/App.tsx:97-101 | A displayed three-field date reads back into the stored one, so display loses nothing. |
| Csv.Escape | src/App.tsx:76 | A text without double quotes is left as it is. |
| Csv.Title | src/App.tsx:74 | The title column holds the title when there is one, else the sport type when there is one, else the singer; it is empty iff all three are. |
| Csv.IntToString | src/App.tsx:75 | A rating's text is non-empty and holds no comma, quote or line break. It reads back as the rating. |
| Csv.Rows | src/App.tsx:71-77 | There is one line per row, in row order, each built as the source builds it: the title quoted but not escaped. |
| Csv.RowAsWritten | src/App.tsx:71-77 | No contract: one line as the export writes it. It holds the date, the table, the title in quotes without doubling its quotes, the rating, and the description in quotes with its quotes doubled, joined by commas. |
| Csv.RowsEscaped | src/App.tsx:71-77 | The corrected lines: one per row, in row order, with the title escaped as well. |
| Csv.ExportCsv | src/App.tsx:69-78 | There is no export iff there are no rows. Otherwise the text is the header line followed by the lines as written. |
| Csv.ExportCsvEscaped | src/App.tsx:69-78 | The corrected export: no export iff there are no rows, otherwise the header line followed by the escaped lines. |
| Csv.ExportsAgreeWithoutQuotedTitles | src/App.tsx:74-76 | When no title holds a double quote, the export as written and the corrected export are the same text. |
| Csv.UnquoteEscape | src/App.tsx:76 | An escaped text, followed by a closing quote, unquotes back to the text. |
| Csv.ReadJoined | src/App.tsx:77 | Comma-joined encoded fields read back into their values. |
| Csv.RowRoundTrip | src/App.tsx:71-77 | Every line, with the title escaped, reads back into the date, table, title, rating and description, given a date without commas or a leading quote. |
| Csv.RatingReadsBack | src/App.tsx:75 | The rating column of a line reads back as the rating number. |
| Csv.RowAsWrittenBreaksOnQuotedTitle | src/App.tsx:74 | A title holding a double quote that is followed by anything but a quote or comma makes the line as written unreadable. The escaped line reads back. |
| Csv.UnescapedQuoteUnreadable | src/App.tsx:74 | A quoted field whose text holds an unescaped quote, followed by an ordinary character, cannot be read. |
| Csv.ExportLines | src/App.tsx:68-78 | When no title holds a double quote and no value a line break, the export as written splits into the header and one line per row, and each line reads back into its row's values. |
| Csv.ExportEscapedLines | src/App.tsx:68-78 | When no value holds a line break, the corrected export splits into the header and one line per row, and each line reads back into its row's values. |
| History.TagRows | src/App.tsx:125 | Tagging keeps every row and sets its table. |
| History.TagRowsCount | src/App.tsx:125 | Every tagged row belongs to the tagging table. |
| History.GatherCountsFrom | src/App.tsx:121-126 | Over distinct tables, a table's count in the concatenation is its fetched row count, or 0 when it was not fetched. |
| History.InsertByDateCount | src/App.tsx:127 | Inserting a row into a newest-first list adds one to its own table's count and changes no other table's count. |
| History.Gather | src/App.tsx:121-126 | No contract: the loop over the tables, appending each table's tagged rows in table order and skipping a table whose fetch returned no data. |
| History.NewerOrSame | src/App.tsx:127 | No contract: the date comparator as an order, later dates first, with rows whose date does not parse placed last. |
| History.TiedIsSameInstant | src/App.tsx:127 | The comparator calls two rows equal exactly when they have the same instant or are both undated. |
| History.SortByDate | src/App.tsx:127 | The sort yields a newest-first permutation, with rows whose date does not parse last. It is stable, as the engine's sort is: rows of the same instant keep their input order. |
| History.SortByDateCount | src/App.tsx:127 | Sorting keeps every table's count. |
| History.LoadHistory | src/App.tsx:119-129 | The loaded history is newest first and a permutation of the tagged rows of all five tables. Each table contributes exactly its fetched rows, and a failed fetch contributes none. The total is the sum over the tables. Rows of the same instant keep their gathered order: table order, then fetch order. |

## Left out

- The React rendering, styles, theme, menu and screen navigation. These are UI with no logic to state.
- The Supabase fetches, inserts, updates and deletes (`guardar`, `confirmarEliminar`, the `await` in `cargarHistorial`). These are network calls into a library that is not part of this model. `LoadHistory` takes each table's fetch result as a parameter.
- The `localStorage` dark-mode flag and the CSV download (data URI, `encodeURI`, the link click). These are browser I/O. `ExportCsv` stops at the text, and the `alert` on an empty list becomes `None`.
- `guardar`'s `parseInt`/`parseFloat` of form fields and the `km` float, because they are form handling, not analytics.
- Date parsing and time zones: `fecha` comes with its parsed timestamp and month index. The current time and month are parameters.
- Filtering.FilterRecords: the source reads the clock once for every row inside the filter callback (line 138), while the model fixes one `now` for the whole pass. The two differ only for a row whose age comes within the pass's own running time of 7 or 30 days.
- Filtering.WithinDays: the source divides milliseconds by a day in floating point and compares with 7 or 30. The model compares the integer milliseconds with 7 or 30 days, which gives the same outcome.
- Breakdown.StatsDetail: the order among entries with equal counts is not stated, because it depends on the engine's `Object.keys` order (integer-like keys first).
- Breakdown.StatsDetail: keys are assumed not to name a member of `Object.prototype`. The frequency map is a plain object, so a key such as `toString` or `constructor` starts from an inherited function and gets a string instead of 1, and `__proto__` never becomes an entry. The model counts such keys like any other.
- Csv.ExportLines: values holding a line break are outside the line-by-line read-back. The description comes from a multi-line text area (line 302) and the source keeps its line breaks inside the quotes, while the model splits the text at every line break before reading.
- History.LoadHistory: a row whose date does not parse makes the source's date comparator inconsistent: its NaN result counts as 0, so the order of the whole list is then engine-defined, not only the undated rows' places. The newest-first order of `LoadHistory` and `SortByDate`, with undated rows last, is one allowed outcome. When every date parses the comparator is consistent, and the source's stable sort gives the order `LoadHistory` states: newest first, rows of the same instant in gathered order.
- Evolution.EvolutionSeries: two copies of one category in the selection write the same object field in the source. The model keeps one series per list entry, both with the same count.
- Summary.Minutes: the duration's numeric value is taken as given by an optional integer. Fractional durations and the text-to-number conversion are not modelled.
- Csv.Fields: the rating is modelled as an integer. A missing rating is 0.
- Dates.FormatDate: the result is stated for dash-separated three-field dates and for dash-free text. Other shapes follow `Split` and `Part` without a dedicated lemma.

## Findings

| source | as written | input that shows it | evidently intended | confidence | as-written member | corrected member |
|---|---|---|---|---|---|---|
| src/App.tsx:74 | The title column is wrapped in double quotes, but quotes inside it are not doubled. The description column at line 76 doubles them. | A book titled `Say "Hi" now`: the line holds `"Say "Hi" now"`, where the quote before `Hi` closes the field and `H` follows it. | Escape the title as the description is escaped, so every line reads back into its five values. | not executed | Csv.RowAsWritten, Csv.ExportCsv, Csv.RowAsWrittenBreaksOnQuotedTitle | Csv.Row, Csv.ExportCsvEscaped, Csv.RowRoundTrip, Csv.ExportEscapedLines |
