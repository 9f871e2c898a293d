# Speed-alert ingestion and reporting, modelled in Dafny

The application collects speeding alerts for a vehicle fleet from two
providers and reports on them.

- **Fagor** sends a workbook. Each row is a map from column names to cells. A row gives a plate (found through a chain of column aliases), a speed (recovered from a free-text description by two regular expressions), and a timestamp (parsed day first). Rows with no speed are dropped, and so are alerts below 50 km/h.
- **Coltrack** sends a pipe-delimited report, already split into header→text rows. Its speed is read with `parseInt` semantics. Rows with an empty plate or a speed below 50 are dropped.

Both loaders resolve a contract name for each plate. They use a directory built from the contract service's reply; the directory stores normalised plates, and the last entry wins.

The session holds the two batches. A load replaces one batch, and the clear action empties both. The session shows the combined list, Fagor first, and a view filtered by three case-insensitive substring filters. It exports that view as CSV, quoting fields as in section 2, rules 6 and 7, of RFC 4180.

The dashboard and the analysis panel summarise a list of alerts:
- high-speed count (≥ 80 km/h), medium-speed count (50–79 km/h) and the number of distinct vehicles;
- top-5 rankings of plates, contracts and operators by number of alerts.

The upload control accepts a file only when its extension is in the control's list.

## Structure

Each source entity is modelled once:

| module | file | models |
|---|---|---|
| `Wrappers`, `Types` | wrappers.dfy, types.dfy | `Option`/`Result`; the alert record, cells, rows, contract entries |
| `Text` | text.dfy | the JavaScript string operations used: `trim`, ASCII `toUpperCase`/`toLowerCase`, `includes`, `split`/`join` on one character, `parseInt(_, 10)`, `String(n)` |
| `Seqs` | seqs.dfy | `filter`, first-occurrence order, the stable `sort` and `slice` |
| `SpeedPatterns` | speed.dfy | the two speed regular expressions, as leftmost searches |
| `DatePattern` | dates.dfy | the strict day-first date regular expression and its groups |
| `ContractService` | contracts.dfy | the plate→contract directory and `fetchContracts` |
| `Fagor`, `Coltrack` | fagor.dfy, coltrack.dfy | the two row normalisers and loaders |
| `AlertFilter` | filter.dfy | `filteredAlerts` |
| `CsvExport` | export.dfy | `handleExportCSV` up to the download, with a reader for the same CSV dialect |
| `Stats` | stats.dfy | `generateTopStats` and the three counters |
| `Analysis` | analysis.dfy | `dataSummary` and `handleGenerateAnalysis` |
| `FileUpload` | fileupload.dfy | `handleFileChange` |
| `Session` | session.dfy | the state of `App` and the views derived from it |

Code the source runs step by step is modelled as methods proved against specification functions:
- the `forEach` that fills the contract map;
- the row callback with its `let` variables;
- the `reduce` over a dictionary in `generateTopStats`;
- the state setters of `App`, `AIAnalysis` and `FileUpload`.

Pure expressions are functions, and the properties are lemmas about those functions.

`generateTopStats` appears twice in the source, at components/Dashboard.tsx:11-22 and components/AIAnalysis.tsx:10-20. The two copies compute the same function, so it is modelled once, as `Stats.TopStats`, and both the dashboard and the summary use it.

Collaborators the program does not define are parameters:
- The workbook library's serial-date decoder, the `Date` constructor, the loose `new Date(string)` parser and `toLocaleString('es-CO')` are fields of `Fagor.Platform`.
- The contract service's reply is a `ContractService.Reply` value.
- The text-generation service's answer is a `Result` passed to `Analysis.Panel.GenerateAnalysis`.

## Model

| member | source | states |
|---|---|---|
| Text.Trim | App.tsx:79 | `trim` never lengthens a string, and its result has no white space at either end |
| Text.TrimIsSlice | App.tsx:79 | `trim` removes only white space: its result is the slice of the input between a run of leading and a run of trailing spaces |
| Text.TrimChars | components/FileUpload.tsx:22 | `trim` introduces no character |
| Text.TrimOfTrimmed | App.tsx:79 | a string with no white space at its ends is its own trim |
| Text.ToUpper | App.tsx:79 | `toUpperCase` keeps the length and maps every character through the ASCII upper-case table |
| Text.ToLower | App.tsx:227-229 | `toLowerCase` keeps the length and maps every character through the ASCII lower-case table |
| Text.UpperFixed | App.tsx:79 | a string without lower-case letters is unchanged by `toUpperCase` |
| Text.NormalizePlate | App.tsx:79 | `.trim().toUpperCase()` yields no longer a string, no white space at the ends and no lower-case letter |
| Text.NormalizePlateIdempotent | services/contractService.ts:20 | normalising a normalised plate changes nothing |
| Text.Contains | App.tsx:227-229 | `includes` holds exactly when the needle occurs at some position |
| Text.Split | components/FileUpload.tsx:21-22 | `split` on one character yields at least one part, no part holds the separator, and joining the parts gives back the input |
| Text.SplitJoin | components/FileUpload.tsx:22 | splitting a join of separator-free parts gives back the parts |
| Text.SplitNoSeparator | components/FileUpload.tsx:21 | a string without the separator splits into itself alone |
| Text.SplitLast | components/FileUpload.tsx:21 | the last part of a split is the whole string when there is no separator, else the text after the last separator |
| Text.ParseInt | App.tsx:163 | `parseInt` is `NaN` exactly when no digit follows the leading white space and optional sign |
| Text.ParseIntOfDigits | App.tsx:87-89 | a run of digits parses to its decimal value |
| Text.NatString | App.tsx:261 | `String(n)` of a natural is a non-empty run of digits without leading zero whose value is n |
| Text.IntStringRoundTrip | App.tsx:163 | `parseInt(String(n))` gives back n, for negative n too |
| Seqs.Filter | App.tsx:149 | `filter` keeps exactly the elements satisfying the predicate, with their multiplicities, as a subsequence of the input |
| Seqs.Distinct | components/Dashboard.tsx:27 | the distinct elements, each once, in order of first occurrence |
| Seqs.SortBy | components/Dashboard.tsx:20 | the stable sort gives a sorted permutation that keeps the relative order of equal keys |
| Seqs.SortByTiesRanked | components/Dashboard.tsx:20 | elements with equal sort keys keep the order they had in the input |
| Seqs.Take | components/Dashboard.tsx:21 | `slice(0, n)` is a prefix of length min(n, length) |
| SpeedPatterns.BarDigitsKmh | App.tsx:83 | `\| (\d+) km\/h` matches at a position exactly when the search says so, capturing the whole digit run |
| SpeedPatterns.LazyTail | App.tsx:83 | the lazy `.*?` stops at the first position where the rest of the pattern matches, without crossing a line break, and fails only when there is no such position |
| SpeedPatterns.SearchCurrentAllowed | App.tsx:83 | the search from a position returns the leftmost match of the first pattern, and returns nothing only when there is none |
| SpeedPatterns.MatchCurrentAllowed | App.tsx:83 | the first pattern's captured digits are those of its leftmost match; no result means no match anywhere |
| SpeedPatterns.SearchVehicle | App.tsx:84 | the search returns the leftmost `Vel. Vehiculo: (\d+)` match from a position, or nothing when none exists |
| SpeedPatterns.MatchVehicle | App.tsx:84 | the second pattern's capture is that of its leftmost match; no result means no match anywhere |
| SpeedPatterns.DigitRunIsMaximal | App.tsx:87-89 | `parseInt` of a maximal digit run reads exactly that run |
| SpeedPatterns.ExtractSpeed | App.tsx:81-90 | the speed is the first pattern's number when it matches, else the second pattern's, else 0 |
| DatePattern.ShortField | App.tsx:107 | `(\d{1,2})[/\-]`: the greedy one- or two-digit field before a separator, or none |
| DatePattern.Year | App.tsx:107 | `(\d{4})`: four digits, or none |
| DatePattern.DatePrefix | App.tsx:107 | the mandatory `day-sep-month-sep-year` part at a position, with the backtracking order of the engine, and none exactly when no reading exists |
| DatePattern.TimeGroups | App.tsx:107 | the optional hour, minute and second groups are digit strings of at most two characters |
| DatePattern.TimeRead | App.tsx:107 | after the date, ` HH:MM:SS` is read as hour `HH`, minute `MM` and second `SS` |
| DatePattern.MatchAt | App.tsx:107 | a match at a position exists exactly when the mandatory part can be read there |
| DatePattern.SearchFrom | App.tsx:107 | the leftmost position where a match starts, or none when no position has one |
| DatePattern.StrictMatch | App.tsx:107 | the groups of the leftmost match, or none when no match exists |
| DatePattern.Fields | App.tsx:110-115 | missing hour, minute and second groups read as 0 |
| DatePattern.StrictDate | App.tsx:107-116 | a string has a strict reading exactly when the pattern matches somewhere |
| DatePattern.StrictDateDayFirst | App.tsx:109-112 | of the leftmost match, group 1 is the day, group 2 the month minus 1 and group 3 the year |
| DatePattern.DateTimeRoundTrip | App.tsx:106-116 | a timestamp written `DD/MM/YYYY HH:MM:SS` is read back as exactly its six fields |
| DatePattern.DateOnlyRoundTrip | App.tsx:113-115 | a date written `DD/MM/YYYY` alone is read back with hour, minute and second 0 |
| DatePattern.FifthOfMarch | App.tsx:106-116 | `"05/03/2024 14:30:00"` is day 5, month index 2 (March), year 2024, 14:30:00 |
| ContractService.BuildContractMap | services/contractService.ts:17-22 | fails exactly when the array holds a `null` element, whose `item.Placa` throws; otherwise the `forEach` loop builds exactly the directory `DirectoryOf` describes |
| ContractService.DirectoryKeys | services/contractService.ts:19-20 | every entry with a plate and a contract is stored under its normalised plate |
| ContractService.KeysFromEntries | services/contractService.ts:18-21 | every stored key comes from an entry with a plate and a contract |
| ContractService.KeysAreNormalised | services/contractService.ts:20 | every key is its own normalisation |
| ContractService.LastWriteWins | services/contractService.ts:18-21 | a key holds the raw contract of the last usable entry with that plate |
| ContractService.UnusableSkipped | services/contractService.ts:19 | an entry lacking a plate or a contract leaves the directory as if it were absent |
| ContractService.EntriesOf | services/contractService.ts:8-15 | the reply is accepted exactly when the response is ok and its JSON body is an object with an array `data` |
| ContractService.FetchContracts | services/contractService.ts:5-29 | an accepted reply whose array has no `null` element gives its directory; every other reply, including one with a `null` element, gives the one generic error |
| ContractService.Resolve | App.tsx:146 | the contract is the directory's entry for the plate when present and non-empty, else `'No Asignado'`; never empty |
| ContractService.ResolveBuilt | App.tsx:172 | a plate resolves to the contract of the last entry that named it |
| Fagor.FirstTruthy | App.tsx:78 | `a \|\| b \|\| c`: the first truthy cell among the aliases, none exactly when none is truthy |
| Fagor.OptionalText | App.tsx:144-145 | a missing or falsy operator or location cell gives `'N/A'` |
| Fagor.PlateOf | App.tsx:78-79 | the plate is empty when no plate alias is filled in, and otherwise has no white space at either end (that it is the first filled alias trimmed and upper-cased is `Fagor.PlateNormalised`) |
| Fagor.PlateNormalised | App.tsx:78-79 | the plate is the text of the first filled plate alias, trimmed and upper-cased: normalising it again changes nothing and it holds no lower-case letter |
| Fagor.CellText | App.tsx:79-80 | `String(cell)`: text as it stands, `true`/`false` for booleans, numbers and dates as the host renders them |
| Fagor.DescriptionOf | App.tsx:80 | the description is the text of the first filled description alias, and empty when none is filled |
| Fagor.SpeedOf | App.tsx:80-90 | a non-zero speed always comes from a match of the first or the second speed pattern in the description |
| Fagor.DateObject | App.tsx:97-123 | a text cell always yields a `Date`, read day first when the strict pattern matches; a `Date` cell is kept as it is; a boolean cell yields none |
| Fagor.TimestampOf | App.tsx:94-138 | `'N/A'` when no date alias is filled in, `'Invalid Date'` when the filled cell yields no `Date` |
| Fagor.RowAlert | App.tsx:77-148 | a row yields an alert exactly when its speed is non-zero; the alert carries the row's plate and speed and the contract resolved from that plate |
| Fagor.Batch | App.tsx:76-149 | at most one alert per row, and every alert kept is at 50 km/h or more |
| Fagor.ReadSpeed | App.tsx:81-90 | the speed the two patterns give, step by step, equals `ExtractSpeed` of the description |
| Fagor.ReadDateObject | App.tsx:97-123 | the `dateObj` the branches compute from a number, text or date cell equals `DateObject` |
| Fagor.ReadTimestamp | App.tsx:94-138 | `fechaHora` as assigned across the branches equals `TimestampOf` |
| Fagor.MapRow | App.tsx:77-148 | the row callback computes exactly `RowAlert` |
| Fagor.ProcessRows | App.tsx:76-149 | the loop over the rows yields exactly `Batch`: the row alerts of 50 km/h or more, in row order |
| Fagor.Completed | App.tsx:76-148 | the `.map` step yields at most one alert per row |
| Fagor.BatchFromRows | App.tsx:149 | every kept alert travels at 50 km/h or more and is the alert of some row; the batch is no longer than the rows |
| Fagor.BatchKeepsFastRows | App.tsx:76-149 | the batch is the filter, at 50 km/h, of the mapped rows |
| Fagor.AlertSpeed | App.tsx:92 | a row yields an alert exactly when its speed is not 0, and the alert carries that speed |
| Fagor.TimestampSentinels | App.tsx:95-138 | `'N/A'` exactly when no date alias is truthy; `'Invalid Date'` exactly when a date cell gives no valid date |
| Fagor.DayFirstTimestamp | App.tsx:105-116 | a `DD/MM/YYYY HH:MM:SS` date cell becomes the local time of exactly its written fields |
| Fagor.EmptyPlateKept | App.tsx:78-79 | a row with a speed of 50 or more but no plate column is kept with plate `""` |
| Fagor.RowAlertFields | App.tsx:140-147 | a row with a speed gives an alert carrying its plate (`Fagor.PlateOf`, normalised as `Fagor.PlateNormalised` states) and that speed |
| Fagor.BatchOfOne | App.tsx:149 | a row whose alert passes the gate forms a batch of exactly that alert |
| Fagor.ContractOfAlert | App.tsx:146 | the alert's contract is the directory's entry for its plate, or `'No Asignado'` |
| Coltrack.Field | App.tsx:162-171 | a missing column reads as the empty string |
| Coltrack.SpeedValue | App.tsx:163 | `parseInt(kph) \|\| 0`: `NaN` reads as 0, otherwise the parsed number |
| Coltrack.OperatorOf | App.tsx:170 | the trimmed `first + " " + last`, or `'N/A'` exactly when that is empty |
| Coltrack.LocationOf | App.tsx:171 | never empty, and `'N/A'` whenever latitude or longitude is missing or empty |
| Coltrack.AlertOf | App.tsx:162-173 | the alert built for a row carries the row's normalised plate and its parsed speed |
| Coltrack.RowAlert | App.tsx:161-174 | a row is kept exactly when its normalised plate is non-empty and its speed is at least 50 |
| Coltrack.Batch | App.tsx:160-175 | at most one alert per row |
| Coltrack.BatchIsPassingRows | App.tsx:160-175 | the batch is exactly the rows with a non-empty plate and a speed of 50 or more, in row order, each turned into its alert |
| Coltrack.NonNumericSpeedDropped | App.tsx:163-164 | a speed field with no digits always drops the row |
| Coltrack.SpeedOfNumber | App.tsx:163 | a speed written as a number is read as that number |
| Coltrack.KeptRow | App.tsx:162-164 | a kept alert has a non-empty, normalised plate and a speed of at least 50 |
| Coltrack.KeptFields | App.tsx:166-173 | the report time is copied verbatim or `'N/A'`, and the contract is the directory's or `'No Asignado'` |
| Coltrack.BatchFromRows | App.tsx:160-175 | every alert of a batch is the alert of one of its rows |
| Coltrack.BatchAlerts | App.tsx:160-175 | every alert of a batch has a non-empty, normalised plate and a speed of at least 50 |
| Coltrack.BatchSpeeds | App.tsx:164 | every alert of a batch passed the 50 km/h gate |
| Coltrack.LocationAvailable | App.tsx:171 | `'N/A'` exactly when latitude or longitude is empty, otherwise `"lat.trim(), lon.trim()"` |
| Coltrack.OperatorTrimmed | App.tsx:170 | the operator has no white space at its ends, and is `'N/A'` with neither name |
| AlertFilter.FilterAlerts | App.tsx:224-231 | an alert is kept exactly when each lower-cased field contains its lower-cased filter; the result is an order-preserving subsequence with the input's multiplicities |
| AlertFilter.Matches | App.tsx:227-229 | empty filter strings match every alert, and a matching alert's field is at least as long as its filter string |
| AlertFilter.EmptyFilterMatches | App.tsx:227-229 | an empty filter string matches every field |
| AlertFilter.NoFiltersKeepAll | App.tsx:224-231 | with the three filters empty the view is the whole list |
| AlertFilter.FilterCaseInsensitive | App.tsx:227-229 | the case of a filter string does not matter |
| AlertFilter.FilterNarrows | App.tsx:226-230 | extending the filter strings only removes alerts |
| AlertFilter.FilterIdempotent | App.tsx:226-230 | filtering a filtered view again changes nothing |
| CsvExport.Escape | App.tsx:254 | doubling the quotes never shortens a field and adds or removes no comma or newline |
| CsvExport.FormatField | App.tsx:249-257 | a field is unchanged unless it holds a comma, quote or newline, in which case it is wrapped in quotes |
| CsvExport.FormatAll | App.tsx:259-266 | every field of a row is formatted, in column order |
| CsvExport.RowLine | App.tsx:259-266 | a data line reads back as the alert's six values, in column order |
| CsvExport.RowLines | App.tsx:259-266 | one line per alert |
| CsvExport.Document | App.tsx:268 | the document starts with the header line, and is the header line alone when there are no alerts |
| CsvExport.ExportCsv | App.tsx:233-237 | no document, only the no-data message, exactly when the filtered list is empty |
| CsvExport.ReadBareOf | App.tsx:256 | an unquoted field without comma or newline reads back as itself |
| CsvExport.ReadQuotedOf | App.tsx:254 | un-doubling the quotes up to the closing quote gives back the original field |
| CsvExport.ReadFieldOf | App.tsx:249-257 | every formatted field reads back as the original value |
| CsvExport.ReadRecordOf | App.tsx:259-266 | a comma-joined line of formatted fields reads back as the fields |
| CsvExport.ReadDocumentOf | App.tsx:268 | newline-joined records read back as the records |
| CsvExport.SpeedNeverQuoted | App.tsx:261 | the speed column is never quoted |
| CsvExport.HeadersUnquoted | App.tsx:239-246 | the six headers are written as they are |
| CsvExport.RowLineOf | App.tsx:259-266 | a data line is the formatted cells of the alert, the speed included, joined by commas |
| CsvExport.RowLinesOf | App.tsx:259-266 | the data lines are the records of the alerts' cells, in input order |
| CsvExport.DocumentRoundTrip | App.tsx:259-268 | the document reads back as the header plus exactly one record per alert, in input order |
| Stats.EntryOrder | components/Dashboard.tsx:18 | `Object.entries` lists exactly the created keys, each as often as it was created |
| Stats.IndexKeysFirst | components/Dashboard.tsx:18 | keys that are array indices come first, in ascending numeric order |
| Stats.EntryOrderPlain | components/Dashboard.tsx:18 | without array-index keys, the entries keep creation order |
| Stats.CountKeys | components/Dashboard.tsx:12-16 | the `reduce` creates each key at its first occurrence and counts its occurrences |
| Stats.AddKey | components/Dashboard.tsx:13-14 | one step of the `reduce` creates or increments the alert's key |
| Stats.ListEntries | components/Dashboard.tsx:18-19 | the `map` to `{name, count}` items, in entry order, with each key's count |
| Stats.GroupKey | components/Dashboard.tsx:13 | the key of an alert is never empty: its field when that is filled, `'N/A'` when the field is the empty string |
| Stats.Counted | components/Dashboard.tsx:18-19 | one item per key of the entry order, in that order, each with that key's number of occurrences |
| Stats.Entries | components/Dashboard.tsx:12-19 | one entry per distinct key of the alerts (what each entry counts is `Stats.EntriesCount`) |
| Stats.SomeKey | components/Dashboard.tsx:12-19 | at least one alert gives at least one distinct key |
| Stats.TopStats | components/Dashboard.tsx:11-22 | at most `topN` items, each of them one of the counted entries |
| Stats.GenerateTopStats | components/Dashboard.tsx:11-22 | the counting loop, entry listing, sort and slice compute exactly `TopStats` (also components/AIAnalysis.tsx:10-20) |
| Stats.CountsSumToTotal | components/Dashboard.tsx:12-19 | the counts over all distinct keys sum to the number of alerts |
| Stats.EntriesCount | components/Dashboard.tsx:12-19 | every entry is a key of the alerts, with its number of occurrences, at least 1 |
| Stats.TopStatsCounts | components/Dashboard.tsx:11-22 | every reported item counts exactly its key's occurrences |
| Stats.TopStatsDescending | components/Dashboard.tsx:20 | the result is non-increasing in count |
| Stats.TopStatsLength | components/Dashboard.tsx:21 | the result has min(topN, distinct keys) items; no alerts give no items |
| Stats.EntriesInEncounterOrder | components/Dashboard.tsx:12-19 | without array-index keys, the entries follow first-encounter order |
| Stats.TiesInEncounterOrder | components/Dashboard.tsx:18-21 | items with equal counts keep first-encounter order when no key is an array index |
| Stats.KeyCount | components/Dashboard.tsx:13-14 | a key other than `''` and `'N/A'` counts the alerts whose field equals it |
| Stats.FalsyCountedAsNotAvailable | components/Dashboard.tsx:13 | `'N/A'` counts the alerts whose field is empty or already `'N/A'` |
| Stats.NoEmptyKey | components/Dashboard.tsx:13 | the empty string is never a key |
| Stats.SpeedBandsCover | components/Dashboard.tsx:25-26 | when every alert is at 50 km/h or more, high plus medium counts are all alerts |
| Stats.SpeedBandsBounded | components/Dashboard.tsx:25-26 | high plus medium never exceed the number of alerts |
| Stats.HighSpeedCount | components/Dashboard.tsx:25 | at most the number of alerts, and 0 exactly when no alert is at 80 km/h or more |
| Stats.MediumSpeedCount | components/Dashboard.tsx:26 | at most the number of alerts, and 0 exactly when no alert is from 50 up to below 80 km/h |
| Stats.UniqueVehicles | components/Dashboard.tsx:27 | at most the number of alerts, and at least 1 when there are alerts |
| Stats.UniqueVehiclesCount | components/Dashboard.tsx:27 | `uniqueVehicles` is the number of distinct plates, at most the number of alerts and at least 1 when there are alerts |
| Analysis.DataSummary | components/AIAnalysis.tsx:27-43 | null exactly for no alerts; the total is the number of alerts, the high and medium counters and the number of distinct plates are those of `Stats`, the three rankings are `Stats.TopStats` with 5 items, and each ranking has between 1 and 5 items |
| Analysis.SummaryBandsCover | components/AIAnalysis.tsx:30-31 | for gated alerts the summary's high and medium counts add up to the total |
| Analysis.Panel.constructor | components/AIAnalysis.tsx:23-25 | the panel starts with no error, no result and not loading |
| Analysis.Panel.GenerateAnalysis | components/AIAnalysis.tsx:45-98 | with no summary only the error is set and nothing is sent; otherwise the summary is sent once and the answer or the generic error is shown |
| Analysis.Panel.Ask | components/AIAnalysis.tsx:50-97 | the request records the summary, then shows the answer or the generic error, and ends not loading |
| FileUpload.ExtensionAfterLastDot | components/FileUpload.tsx:21 | the extension is `'.'` plus the lower-cased text after the last dot, or plus the whole lower-cased name without a dot |
| FileUpload.FileExtension | components/FileUpload.tsx:21 | a dot followed by text with no further dot |
| FileUpload.AllowedExtensions | components/FileUpload.tsx:22 | one entry per comma-separated item, none with white space at either end |
| FileUpload.Accepts | components/FileUpload.tsx:21-24 | whether a file is accepted does not depend on the case of its name |
| FileUpload.RejectMessage | components/FileUpload.tsx:25 | the message quotes the accepted list as written and ends with a full stop |
| FileUpload.ExtensionIgnoresCase | components/FileUpload.tsx:21 | upper-casing the file name does not change its extension |
| FileUpload.LastPartOfUpper | components/FileUpload.tsx:21 | upper-casing commutes with taking the text after the last dot |
| FileUpload.AllowedExtensionsShape | components/FileUpload.tsx:22 | one allowed item per comma-separated part, each trimmed and without a comma |
| FileUpload.Uploader.constructor | components/FileUpload.tsx:12-14 | the control starts with no error and nothing handed on |
| FileUpload.Uploader.HandleFileChange | components/FileUpload.tsx:16-34 | the error is cleared first; a rejected file sets the error naming the list, hands nothing on and keeps the input; an accepted file is handed on once and the input reset; no file only resets the input |
| Session.WithFilter | App.tsx:213-216 | changing one filter input replaces that filter only |
| Session.GatedBatches | App.tsx:222 | combining two gated batches in either order keeps every alert gated |
| Session.GatedColtrack | App.tsx:160-176 | the Coltrack batch, every alert of which passed the gate |
| Session.App.constructor | App.tsx:19-32 | the session starts with empty batches, an empty directory, empty filters and no error |
| Session.App.LoadContracts | App.tsx:35-45 | a successful fetch replaces the directory; a failed one records its message; the batches stay |
| Session.App.LoadFagor | App.tsx:151 | the Fagor batch becomes the loader's batch; the Coltrack batch, directory and filters are unchanged |
| Session.App.LoadColtrack | App.tsx:176 | the Coltrack batch becomes the loader's batch; the Fagor batch, directory and filters are unchanged |
| Session.App.ClearAllData | App.tsx:208-211 | both batches become empty and nothing else changes |
| Session.App.SetFilter | App.tsx:213-216 | one filter changes and nothing else |
| Session.App.ClearFilters | App.tsx:218-220 | the three filters become empty and nothing else changes |
| Session.App.Combined | App.tsx:222 | the combined list is the Fagor batch followed by the Coltrack batch |
| Session.App.Filtered | App.tsx:224-231 | an order-preserving subsequence of the combined alerts holding exactly those that match the filters |
| Session.App.Export | App.tsx:233-268 | the no-data message exactly when the filtered view is empty, otherwise the document of the filtered view |
| Session.ClearedFiltersShowAll | App.tsx:222-231 | with the filters cleared the view is every alert, Fagor first |
| Session.FilteredBandsCover | App.tsx:224-231 | in any filtered view of loaded alerts the high and medium counts add up to its size |
| Session.ExportOfSession | App.tsx:233-268 | the export is refused exactly when the view is empty, and otherwise reads back as the header plus one record per shown alert |

## Left out

- The workbook and CSV parsers (`XLSX.read`, `sheet_to_json`, `Papa.parse`): their output is the input of the model, as rows mapping column names to cells or text.
- `parse_date_code`, the `Date` constructor with its calendar rollover, the loose `new Date(string)` parser and `toLocaleString('es-CO')` depend on a library, the locale and the clock. They are abstract functions in `Fagor.Platform`, so the timestamp text is known only up to them.
- `fetch`, JSON decoding, `localStorage` persistence, the Blob download and today's date in the file name are input and output. The decoded reply is a parameter, and the export stops at the document text.
- The text-generation request and the prompt text are a network service and presentation. The service's answer is a parameter of `Analysis.Panel.GenerateAnalysis`.
- The loading flags of the two loaders, the tabs and all rendering carry no decision logic.
- `LocationCell` and the map markers depend on floating point and external SDKs.
- Text.ToUpper: Unicode case mapping is not modelled; upper-casing acts on ASCII letters only.
- Text.ToLower: likewise acts on ASCII letters only.
- Text.ParseInt: models `parseInt` on unbounded integers, so the loss of precision of very long digit runs is not modelled.
- Stats.TiesInEncounterOrder: stated only for keys that are not array indices. For array-index keys (an all-digit plate, say), `Stats.IndexKeysFirst` states the order instead.
- Stats.GenerateTopStats: takes `topN` as an argument. Every call in the source uses the default 5.
- `Stats.Column` covers only the three fields the source ranks by: plate, contract and operator.
- Contract entries with a non-string `Placa` or `Contrato` are not modelled; an entry's fields are optional strings, and a `null` element of the array is `None`.
- Stats.CountKeys: the `reduce` accumulates into a plain object literal; a key named like an inherited `Object.prototype` member (`constructor`, `toString`, `valueOf`, …) starts from that inherited truthy value, so `+ 1` concatenates instead of counting, and `__proto__` is never counted at all. `CountKeys`, `AddKey` and `KeyCount` assume every key starts at 0.
- Fagor.EmptyPlateKept: the Fagor loader does not reject an empty plate, and the model follows the code. So only the Coltrack path guarantees a non-empty plate (`Coltrack.BatchAlerts`).
- A carriage return is not treated as a line break, neither by the exporter's quoting rule nor by the model. The model's reader splits on `\n` only.
- The upload control's file contents and the exceptions raised while reading a file are not modelled. Only the file name reaches the model.
- The input element's reference is not modelled. `inputValue` stands for its `value`.
