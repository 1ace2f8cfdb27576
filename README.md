# OpenRouter costs visualizer — a Dafny model of its data core

The visualizer is a browser page. It reads an OpenRouter usage export (a
CSV file, one line per generation) and shows:

- cost KPIs;
- a per-model table;
- a bar chart of the 15 most expensive models;
- a line chart of cost per hour.

Records can be filtered by model and by a date range. Export files are
managed through a drop zone.

This project models the part of the page that computes things. The DOM,
charts and formatting are not modelled.

- **Records** (`records.dfy`): reading an export. It covers:
  - the header's column map (`header.indexOf` per known column);
  - the coercion of one comma-split line into a usage record (`toNum`, `Math.trunc`, the `created_at` text with its first space turned into `T`, and the trimmed model);
  - the rejection of lines with no valid date or no model;
  - the stable ascending sort by date.
- **Dashboard** (`dashboard.dfy`): the page's shared `state` as a class.
  - Its methods are `parseCSV`, `applyFilters`, `resetFilters`, and both versions of `populateModelFilter` with its checkbox, "All" and "None" handlers: the one inside `app.js` and the one of the filters component.
  - Each method states the new state outright.
  - The invariant `Consistent` says the dropdown lists exactly the loaded models, a box is ticked exactly when its model is selected, and the button caption counts the selection.
  - `LoadCsv` and `Install` establish it. `ResetFilters`, the checkbox, "All" and "None" handlers of both versions keep it. The component's `populateModelFilter` establishes it when given the loaded models. `app.js`'s `populateModelFilter` and `ApplyFilters` do not promise it.
- **Filters** (`filters.dfy`): the model button caption, `getSelectedModels`, and the row test with the order-preserving filter it drives.
- **LocalTime** (`local_time.dfy`):
  - the inclusive day bounds built from a `YYYY-MM-DD` date input;
  - the hour keys of the line chart.
- **Aggregate** (`aggregate.dfy`): the sums behind `renderKPIs`, `renderTable`, `renderBarByModel` and `renderLineOverTime`.
  - Rollups are kept per model or per hour, keys in order of first appearance.
  - Sorting is descending by cost; the top 15 are kept.
  - Footer totals and the rounded averages are included.
  - Hour buckets are in ascending key order.
- **Html** (`escape.dfy`): `escapeHTML`, proved lossless by a round trip through the decoding of the five character references `&amp;`, `&lt;`, `&gt;`, `&quot;` and `&#39;`.
- **FilesControl** (`files.dfy`): the registry of loaded files as a class. It covers:
  - `addFile`, the remove button, `clearAllFiles` and `handleFiles` with its `.csv` name gate;
  - the files-count caption and the drop-zone caption.
- **Text** (`text.dfy`) and **Wrappers** (`wrappers.dfy`) hold the string functions and the `Option` type these share.

Costs and latencies are exact reals and token counts are unbounded integers.
`Number(...)` and `new Date(...)` applied to export fields are passed in as a
`Parsers` value, so every statement holds for any parser.

Design decisions where the sources offer a choice:

- `app.js` and js/components/filters.js each define `populateModelFilter` with its checkbox, "All" and "None" handlers. Both are modelled:
  - `app.js` (lines 189-229), used by `parseCSV`: "All" selects every listed model with no guard, rebuilding the list leaves the selection as it is, and each handler refreshes the caption and re-applies the filters.
  - The component (js/components/filters.js:10-99), as the `Component…` methods: "All" does nothing while no model is loaded, rebuilding the list keeps only the selected models still loaded and ticks their boxes, and no handler re-applies the filters.
- `getSelectedModels` returns an array. Its callers only test emptiness and membership (`sel.includes`), so the model returns a set.
- `handleFiles` sets the drop-zone caption from the whole batch's length, including names the `.csv` gate refused. The model keeps this. `FilesControl.MixedBatchCaption` shows one `.csv` file plus one other file: one entry is registered, yet the caption reads "2 files added".

## Model

| member | source | states |
|---|---|---|
| Text.Trim | app.js:137 | the result is an infix `s[a..b]` of the text with only whitespace outside it and no whitespace at either of its ends; it is empty exactly when the text is all whitespace |
| Text.Split | app.js:137 | splitting yields at least one part and no part holds the separator |
| Text.JoinSplit | app.js:137 | splitting loses nothing: joining the parts with the separator gives the text back |
| Text.SplitJoin | app.js:92 | splitting a join of separator-free parts gives those parts back |
| Text.IndexOf | app.js:142-156 | `indexOf` is the first position holding the name, or -1 exactly when the name is absent |
| Text.ReplaceFirst | app.js:95 | `replace(' ', 'T')` changes only the first space, length kept |
| Text.AsciiLower | js/components/files-control.js:89 | lower-casing maps A–Z to a–z position by position and keeps every other character |
| Text.NatToString | app.js:272 | a count prints as a non-empty run of decimal digits with no leading zero |
| Text.NatToStringValue | app.js:272 | the printed digits read back as the count |
| Text.NatToStringInjective | app.js:272 | different counts print differently |
| Text.Pad2 | app.js:532 | `padStart(2,'0')` of a number below 100 is its two decimal digits |
| Text.StrLtTotal | app.js:193 | the code-point string order standing for `sort()`'s is total on distinct strings |
| Text.StrLtTransitive | app.js:193 | that order is transitive |
| Text.SortStrings | app.js:193 | `[...models].sort()` lists every model once, strictly ascending, and nothing else |
| LocalTime.DateStartInclusive | app.js:284-288 | no bound exactly when the input is empty or not a calendar day; otherwise 00:00:00.000 of that day |
| LocalTime.DateEndInclusive | app.js:289-293 | no bound exactly when the input is empty or not a calendar day; otherwise 23:59:59.999 of that day |
| LocalTime.ParseFormatDay | app.js:284-293 | every calendar day written as `YYYY-MM-DD` reads back as that day |
| LocalTime.FormatParseDay | app.js:284-293 | every accepted date text is the canonical writing of its day |
| LocalTime.WithinDay | app.js:284-293 | a valid time lies between a day's start and end bounds exactly when it falls on that day |
| LocalTime.DayBoundsOfText | app.js:284-293 | the bounds built from a day's text are that day's start and end, and they enclose exactly that day's times (the component's bounds, js/components/filters.js:120-129, are the same) |
| LocalTime.BeforeTotal | app.js:304-305 | any two times are equal or one is strictly before the other, never both ways |
| LocalTime.BeforeTransitive | app.js:304-305 | "before" is transitive |
| LocalTime.HourKeyLayout | app.js:532 | for four-digit years the hour key is `YYYY-MM-DD HH:00` with fixed-width fields |
| LocalTime.HourKeyOrder | app.js:532-535 | hour keys sort as their hours do, and two keys are equal exactly when the times share an hour |
| Records.BuildColumnMap | app.js:141-157 | the header line is split at commas and each field trimmed; each of the 14 known columns then maps to the first field whose trimmed text is exactly its name, or -1 when none is |
| Records.ToNum | app.js:85-89 | a missing, empty or non-finite field reads 0; otherwise its numeric value |
| Records.Trunc | app.js:128-130 | `Math.trunc` drops the fraction toward zero |
| Records.ParseLine | app.js:90-134 | a line is rejected exactly when its `created_at` is missing, blank or not a date, or its trimmed model is empty; an accepted record carries that model |
| Records.CoercionRules | app.js:119-133 | in an accepted record each cost and latency is `toNum` of its column (0 when the column is absent or past the line's end), each token count the truncation of its value, the date the parsed timestamp |
| Records.MissingKeyColumnRejects | app.js:94-98 | a header without `created_at` or `model_permaslug` rejects every line |
| Records.LineRows | app.js:166-171 | a data line contributes at most one record; it contributes one exactly when it is non-blank after trimming and parses, and that record is its parse |
| Records.AcceptedRowsSound | app.js:165-174 | the load keeps at most one record per data line, each the parse of a non-blank line |
| Records.AcceptedRowsComplete | app.js:165-174 | every data line that is non-blank after trimming and parses has its record among the loaded ones |
| Records.MissingKeyColumnDropsAll | app.js:165-174 | with either key column missing, no record is loaded |
| Records.InsertByDate | app.js:176 | inserting into date-sorted records keeps them sorted and adds exactly that record |
| Records.SortByDate | app.js:176 | the sort by date gives records in ascending date order, a permutation of the input |
| Records.OnDate | app.js:176 | the records of one date are at most all the records, each of them carrying that date |
| Records.InsertStable | app.js:176 | inserting a record puts it after the records of its own date and leaves every date's records in their order |
| Records.SortByDateStable | app.js:176 | the sort is stable: for every date, the records of that date keep their original order |
| Filters.ModelButtonCaption | app.js:269-273 | 'All models' for 0, '1 model selected' for 1, 'n models selected' for n > 1 (the component's `updateModelButtonCaption`, js/components/filters.js:4-8, is the same) |
| Filters.ModelButtonCaptionInjective | app.js:269-273 | the caption tells the number of selected models exactly |
| Filters.SelectedModels | app.js:276-283 | the checkbox selection when non-empty, else the legacy select's values; empty exactly when both are (the component's `getSelectedModels`, js/components/filters.js:112-118, is the same) |
| Filters.FilterSubsequence | app.js:302-307 | filtering keeps records in their original order |
| Filters.FilterCounts | app.js:302-307 | a record occurs in the result as often as in the input when it passes the model and date test, and not at all otherwise |
| Filters.FilterMembers | app.js:302-307 | the kept records are exactly the input records that pass the test |
| Filters.FilterSorted | app.js:302-307 | filtering date-sorted records leaves them date-sorted |
| Filters.FilterNoCriteria | app.js:302-307 | with no model chosen and no date bounds every record is kept, in place |
| Filters.OneDayFilter | app.js:284-307 | with both date inputs set to the same day, exactly that day's records are kept |
| Dashboard.CollectRows | app.js:162-174 | the load loop yields exactly the accepted records of the data lines and the set of their models |
| Dashboard.ExportLines | app.js:137 | the trimmed text splits into at least one line, and joining the lines with newlines gives the trimmed text back, so no character is lost |
| Dashboard.LoadedRows | app.js:137-176 | the loaded records are date-sorted and a permutation of the accepted records |
| Dashboard.ReadExport | app.js:141-177 | header map, load loop and sort together give the loaded records and their models |
| Dashboard.SortedModels | app.js:176-177 | reordering records does not change their set of models |
| Dashboard.State.constructor | app.js:52-54 | the page starts with no records, no models, no selection and no date bounds |
| Dashboard.State.ApplyFilters | app.js:295-310 | with no records nothing changes; otherwise the shown records become the input records passing the selection and the inclusive date bounds, everything else unchanged (the component's `applyFilters`, js/components/filters.js:131-146, is the same) |
| Dashboard.State.ResetFilters | app.js:312-324 | dates, legacy and checkbox selections cleared, every box unticked, caption 'All models', every record shown; the invariant is kept (the component's `resetFilters`, js/components/filters.js:148-158, is the same) |
| Dashboard.State.SetChecked | app.js:203-208 | ticking adds exactly that model to the selection and unticking removes exactly it; caption refreshed, filters applied, invariant kept |
| Dashboard.State.SelectAll | app.js:220-224 | every listed model selected and every box ticked, caption refreshed, filters applied; on a consistent state the selection becomes all models |
| Dashboard.State.SelectNone | app.js:225-229 | selection emptied, every box unticked, caption 'All models', filters applied, invariant kept |
| Dashboard.State.PopulateModelFilter | app.js:189-210 | one fresh unticked box per model, strictly ascending, the selection untouched |
| Dashboard.State.ComponentSetChecked | js/components/filters.js:23-27 | ticking adds exactly that model and unticking removes exactly it; caption refreshed, shown records untouched, invariant kept |
| Dashboard.State.ComponentSelectAll | js/components/filters.js:51-57 | with no models loaded nothing changes; otherwise every model is selected, every box ticked and the caption counts them; shown records untouched, invariant kept |
| Dashboard.State.ComponentSelectNone | js/components/filters.js:58-62 | selection emptied, every box unticked, caption 'All models', shown records untouched, invariant kept |
| Dashboard.State.ComponentPopulateModelFilter | js/components/filters.js:10-99 | one box per model, strictly ascending; the selection cut down to the given models; a box ticked exactly when its model stays selected; caption counting what stays; the invariant holds when given the loaded models |
| Dashboard.PruneSelection | js/components/filters.js:89-92 | the pruning loop keeps exactly the selected models that are among the given ones |
| Dashboard.TickBoxes | js/components/filters.js:94-96 | the ticking loop gives one box per listed model, ticked exactly when the model is selected |
| Dashboard.State.Install | app.js:176-184 | the new records and models installed, the model list rebuilt, every filter cleared, the invariant established |
| Dashboard.State.LoadCsv | app.js:136-187 | input with fewer than two lines changes nothing; otherwise the records are the sorted accepted ones, the models theirs, listed ascending and unticked, the filters cleared, every record shown, and the invariant holds |
| Aggregate.SummarizeSnoc | app.js:373-388 | one more record adds exactly its fields to a rollup |
| Aggregate.SummarizeFields | app.js:373-388 | each rollup field is the sum of that field over the records; `req` counts them and `tokenOutput` sums completion minus reasoning tokens |
| Aggregate.FirstKeysMembers | app.js:372-388 | the Map's keys are exactly the keys that occur, each once, in order of first appearance |
| Aggregate.Partition | app.js:398-427 | the per-key rollups add up to the rollup of all the records |
| Aggregate.RollupByKey | app.js:372-388 | the grouping loop gives one rollup per occurring key, that key's records summed, keys in first-appearance order |
| Aggregate.SortDesc | app.js:390 | the sort by total cost is descending and a permutation |
| Aggregate.WithCost | app.js:390 | the elements of one cost are at most all the elements, each of them having that cost |
| Aggregate.InsertDescStable | app.js:390 | inserting an element puts it after the elements of its own cost and leaves every cost's elements in their order |
| Aggregate.SortDescStable | app.js:390 | the sort is stable: for every cost, the elements of that cost keep their original order, which fixes the order of tied table lines and bars |
| Aggregate.SumEntriesSort | app.js:390-427 | sorting the entries does not change the footer sums |
| Aggregate.AddUp | app.js:414-427 | the footer loop sums the entries' rollups |
| Aggregate.AvgRound | app.js:430-443 | `Math.round(sum / req)` is within one half of the mean (halves rounding up), and 0 with no requests |
| Aggregate.AvgExact | app.js:431 | the unrounded token-output average times the request count is the sum; 0 with no requests |
| Aggregate.AveragesOf | app.js:430-443 | each per-request average is the rounded or exact mean of its sum, all 0 with no requests |
| Aggregate.RenderTable | app.js:370-443 | the table computation gives the table of the records |
| Aggregate.TableOrdered | app.js:390 | table lines run from the most to the least expensive model |
| Aggregate.TableLines | app.js:370-443 | one line per occurring model, holding that model's rollup and averages |
| Aggregate.TableFooter | app.js:398-427 | the footer counts the distinct models, its sums are those of all records, and its request count is the record count |
| Aggregate.KpisOf | app.js:350-368 | count is the number of records, OpenRouter cost the sum of `cost_total`, total cost the sum of the five cost fields, average cost per request, window from the first to the last record's date |
| Aggregate.KpisAgreeWithTable | app.js:350-427 | the KPI cards and the table footer agree on count, OpenRouter cost and total cost |
| Aggregate.KpiWindow | app.js:358-359 | on date-sorted records the window spans every record |
| Aggregate.CostByKey | app.js:493-494 | the per-model cost loop gives each occurring model its summed cost, keys in first-appearance order |
| Aggregate.BarByModel | app.js:492-499 | the bar chart's bars are the top bars of the records |
| Aggregate.TopBars | app.js:492-499 | at most 15 bars, as many as models when fewer, most expensive first, each an occurring model with its summed cost, no model twice |
| Aggregate.TopBarsDominate | app.js:496-497 | a model left off the chart costs no more than any model on it |
| Aggregate.SeriesByKey | app.js:528-537 | bucket labels strictly ascending, exactly the occurring keys, each with its summed cost |
| Aggregate.LineOverTime | app.js:527-537 | labels are exactly the hours that occur, ascending; each point is its hour's summed cost; the points add up to the total cost |
| Aggregate.HourKeys | app.js:530-534 | the buckets are exactly the hour keys of the records |
| Aggregate.LineTotal | app.js:527-537 | ascending per-hour costs covering every hour add up to the total cost |
| Html.EscapeChar | app.js:723 | `&` becomes `&amp;`, `<` `&lt;`, `>` `&gt;`, `"` `&quot;` and `'` `&#39;`; every other character stays as it is |
| Html.EscapeHtml | app.js:722-724 | the escaped text is no shorter and holds none of `< > " '` |
| Html.EscapePlain | app.js:722-724 | text without special characters is unchanged |
| Html.UnescapeChar | app.js:723 | decoding the five references, read independently of the escaper, turns one escaped character followed by any text back into that character and the text |
| Html.UnescapeEscape | app.js:722-724 | decoding the five references in escaped text gives the text back |
| Html.EscapeInjective | app.js:722-724 | different texts escape differently |
| FilesControl.CsvNameChars | js/components/files-control.js:89 | a name passes the gate exactly when it ends in a dot and c, s, v in either case |
| FilesControl.FilesCountCaption | js/components/files-control.js:37 | '1 file' for one file, 'n files' otherwise |
| FilesControl.FilesCountCaptionInjective | js/components/files-control.js:37 | the count caption tells the number of files exactly |
| FilesControl.DropZoneCaption | js/components/files-control.js:5-16 | 'Drop CSV files here' for 0, 'Add more files' for 1, 'n files added' otherwise |
| FilesControl.DropZoneCaptionInjective | js/components/files-control.js:5-16 | different counts give different drop-zone captions |
| FilesControl.AdmittedMembers | js/components/files-control.js:86-92 | an entry is added exactly for each upload of the batch whose name passes the gate |
| FilesControl.AdmittedOrder | js/components/files-control.js:86-92 | the entries a batch adds are, position by position, the entries of its `.csv` uploads taken in batch order, a subsequence of the batch |
| FilesControl.AdmittedCounts | js/components/files-control.js:86-92 | an entry is added as many times as there are positions in the batch holding a `.csv` upload with that entry |
| FilesControl.WithoutIdMembers | js/components/files-control.js:59 | removal drops every entry with that id and keeps every other entry |
| FilesControl.WithoutIdCounts | js/components/files-control.js:59 | an entry is kept exactly as often as it occurs when its id differs, and never otherwise |
| FilesControl.WithoutIdOrder | js/components/files-control.js:59 | the entries kept stay in their order |
| FilesControl.WithoutAbsentId | js/components/files-control.js:59 | removing an id no entry carries changes nothing |
| FilesControl.Registry.constructor | js/components/files-control.js:152-154 | the control starts with no files, '0 files' and 'Drop CSV files here' |
| FilesControl.Registry.AddFile | js/components/files-control.js:70-84 | exactly one entry appended after the earlier ones, count caption refreshed |
| FilesControl.Registry.RemoveFile | js/components/files-control.js:58-63 | the entries with that id removed, count caption refreshed, drop zone reset when none is left |
| FilesControl.Registry.ClearAllFiles | js/components/files-control.js:94-99 | registry emptied, both captions reset |
| FilesControl.Registry.HandleFiles | js/components/files-control.js:86-92 | an empty batch changes nothing; otherwise the batch's `.csv` uploads are appended in order and the drop zone counts the whole batch; the count caption stays current |
| FilesControl.MixedBatchCaption | js/components/files-control.js:86-92 | one `.csv` file and one other file register one entry while the caption reads '2 files added' |

## Left out

- Which of the two `populateModelFilter` versions wired the controls last is not tracked: both sets of handlers are methods of the same state.
- The filters component writes each model unescaped into its checkbox's `value` and reads the ticks back from `cb.value` (js/components/filters.js:19, 95). The model ticks by model name, so a model text that HTML would alter there is not modelled.
- services/parser.js, state.js and utils/dom.js are not part of this model.
  - `FilesControl.Upload` carries the records the export parser produced for a file.
  - The registry starts empty.
- Number() and the Date constructor applied to export fields are parameters (`Records.Parsers`), so browser-specific date formats are not modelled.
- The `YYYY-MM-DD` date inputs are parsed concretely in local time.
  - Days that do not exist, such as February 30, give no bound in the model, where a browser may roll them over into the next month.
- Records.SortByDate and Filters.Keep: order records by their local calendar fields (`LocalTime.Before`), where the source subtracts and compares `Date` instants (app.js:176 `a.date - b.date`, app.js:304-305 `r.date < from`, `r.date > to`). The two orders disagree in the hour repeated when daylight saving time ends: 01:30 in the second pass is a later instant than 01:45 in the first pass, yet its calendar fields sort before them. Time-zone transitions are not modelled anywhere, including in the date-input bounds.
- Floating point: sums, averages and costs are exact reals. IEEE rounding and the order dependence of floating-point sums are not modelled.
- Rendering is not modelled:
  - DOM updates, `Intl.NumberFormat` output, the KPI window's text formatting and Chart.js;
  - the column-visibility panel with its localStorage persistence;
  - the model search box, panel positioning, `console.log` and `alert`.
- `clearUI` and `renderAll` are not modelled: `Dashboard.State.ApplyFilters` stops where `state.filtered` is set.
- `FileReader` is asynchronous.
  - `FilesControl.Registry.HandleFiles` appends entries in batch order as if each read finished in turn.
  - A read that throws (the `alert` path) adds nothing and is not modelled.
- Each call of `app.js`'s `populateModelFilter` registers another set of "All"/"None"/search listeners. The model keeps one handler per button, acting on the current list.
- The file id (`Date.now()` and `Math.random()`) is supplied with each upload.
- The single-file loader in app.js (`handleFile`, its own `updateDropZoneState` and the drop handlers, lines 727-789) is not modelled; the multi-file control is.
- Text.AsciiLower: lowers only A–Z; the full Unicode case mapping of `toLowerCase` is not modelled.
- Text.SortStrings: orders by code points, where `sort()` compares UTF-16 code units. The two orders differ only for characters above U+FFFF: `sort()` puts "\u{10000}" (surrogates 0xD800 0xDC00) before "\u{E000}", code-point order puts it after. For the hour keys, `localeCompare` is taken to agree with it. It does, because keys of the same layout differ first at a digit.
- LocalTime.HourKeyOrder: proved for years 1000-9999 only; `getFullYear()` is not zero-padded, so keys of other years do not sort chronologically.
- Filters.FilterRows: its own contract states only the length bound. Membership, counts and order are proved in `Filters.FilterMembers`, `Filters.FilterCounts` and `Filters.FilterSubsequence`.
- FilesControl.Admitted: its own contract states only the length bound. Which entries are added is proved in `FilesControl.AdmittedMembers`, how many times in `FilesControl.AdmittedCounts`, and in which order in `FilesControl.AdmittedOrder`.
- FilesControl.WithoutId: its own contract states only the length bound; the effect of removal is proved in `FilesControl.WithoutIdMembers`, `FilesControl.WithoutIdCounts` and `FilesControl.WithoutIdOrder`.
