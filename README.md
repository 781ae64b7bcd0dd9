# vPlot data core in Dafny

A model of the data path of vPlot, a Unity point-cloud plotter.

**Network (Assets/Scripts/Network.cs)**
- A Client connects to a data source. A Server accepts data sources one after another.
- Both refuse ports below 1024.
- Both feed the text they receive to a CSV stream Parser.
- The Parser cuts the stream into rows at '\n' and fields at ','.
- Each field becomes a float. A malformed field gives NaN. An overflow gives the largest or smallest float.
- With timestamps on, each row gets one more field: the milliseconds since the first row.
- The first row of a session becomes the column labels and is not queued:
  - its literal fields when its first entry is NaN;
  - otherwise "Feature 1", "Feature 2", and so on.
- Every later row goes into a DataStore, a queue that the renderer drains.

**Plottable data (Assets/Scripts/PlottableData.cs)**
- The store keeps every data point, each column's minimum and maximum, and each column's rank list. A rank list is the column's distinct values in increasing order.
- It chooses which axes of a point's position to interpolate.
- It decides whether a position lies in the drill-down box.

**CSV import (Assets/Scripts/CSVPlot.cs)**
- Repairs out-of-range field indices.
- Decides whether the header line holds titles or a first data point.
- Reads every record into a point.
- Throttles the sample rate above 20000 points.
- Hands the points to the store.

**Colour dropdown (Assets/Scripts/Plot.cs)**
- Maps the settings menu's values 0 to 7 to eight engine colours, and maps colours back.

**Modules**

| module | file | contents |
|---|---|---|
| `Common` | common.dfy | Option, 32-bit floats as `Num(real) \| NaN`, and the outcome of the platform's `float.Parse` |
| `Text` | text.dfy | `String.IndexOf`, splitting at a delimiter, lines of a stream, decimal printing |
| `RowStore` | row_store.dfy | class `DataStore` |
| `ParserSpec` | parser_spec.dfy | what the parser does to rows, as functions over a state value `Machine` |
| `Parsing` | parser.dfy | class `Parser`, its loops proved against `ParserSpec` |
| `Connections` | connections.dfy | classes `Client` and `Server`; a connection as a sequence of chunks |
| `StoreSpec` | store_spec.dfy | the store as a value `Store`, with its consistency invariant `Valid` |
| `Plottables` | plottable.dfy | class `PlottableData` over arrays, proved against `StoreSpec` |
| `CsvPlots` | csv_plot.dfy | class `CSVPlot` and the import |
| `PlotColors` | plot_colors.dfy | the colour dropdown |

**Where the model follows the code over the documentation**
- The first row of a session is never queued, even when it holds numbers. Its labels count from 1 ("Feature 1"), while the CSV import counts from 0 ("Feature 0").
- A Server resets only the first-row flag when it accepts a connection. The stored fragment and the running stopwatch carry over to the next connection (`FragmentCarriesOver`, `FeedKeepsStopwatch`).

## Model

| member | source | states |
|---|---|---|
| Text.IndexOf | Assets/Scripts/Network.cs:98 | the result is -1 when no delimiter is at or after `from`; otherwise it is the first such position |
| Text.SplitFacts | Assets/Scripts/Network.cs:94-108 | joining a row's fields with ',' gives back the row less one trailing ','; there is one field per ',' plus one, minus one when the row is empty or ends in ','; no field holds a ','; only the empty row has no field |
| Text.SplitFromJoin | Assets/Scripts/Network.cs:97-108 | the fields cut from a position, joined again, are the text from there less one trailing delimiter |
| Text.SplitFromCount | Assets/Scripts/Network.cs:97-108 | the number of fields the loop and the last-field test produce |
| Text.SplitFromFieldsFree | Assets/Scripts/Network.cs:97-108 | no field contains the delimiter |
| Text.LinesRestCover | Assets/Scripts/Network.cs:161-195 | a chunk is its complete lines, each followed by '\n', then its unterminated rest; there is one line per '\n'; neither the lines nor the rest hold a '\n' |
| Text.LinesAppend | Assets/Scripts/Network.cs:161-195 | the lines of `x + y` are those of `x`, then those of the rest of `x` followed by `y`; the rest is that of the rest of `x` followed by `y` |
| Text.NoLines | Assets/Scripts/Network.cs:162 | text without a '\n' completes no row and is kept whole |
| Text.DecimalRoundTrip | Assets/Scripts/Network.cs:178 | reading the printed digits of a number back gives the number, and at least one digit is printed |
| Text.DecimalInjective | Assets/Scripts/Network.cs:178 | two numbers with the same printed digits are equal |
| RowStore.DataStore.constructor | Assets/Scripts/Network.cs:12-17 | the queue starts empty and there are no labels yet |
| RowStore.DataStore.Dequeue | Assets/Scripts/Network.cs:19-30 | returns every queued row, oldest first, and empties the queue; the labels are unchanged |
| RowStore.DataStore.Enqueue | Assets/Scripts/Network.cs:32-38 | appends the row at the back of the queue; the labels are unchanged |
| RowStore.EnqueueThenDrainTwice | Assets/Scripts/Network.cs:19-38 | first in, first out: a drain after a batch returns the pending rows, then the batch in order; a second drain returns nothing |
| ParserSpec.ParseValue | Assets/Scripts/Network.cs:71-88 | a converted field keeps its value and a malformed one is NaN; an overflow gives the largest float when the text has no '-', the smallest otherwise |
| ParserSpec.Stamp | Assets/Scripts/Network.cs:110-122 | no timestamp field without a stopwatch; 0 on the row that starts it; afterwards, the milliseconds since it started |
| ParserSpec.StampStable | Assets/Scripts/Network.cs:113-121 | starting the stopwatch does not change the stamp of the row that starts it |
| ParserSpec.StampMonotone | Assets/Scripts/Network.cs:113-121 | with clock readings that do not go back, stamps do not decrease, and a running stopwatch is never restarted |
| ParserSpec.RowLabelsAgree | Assets/Scripts/Network.cs:90-154 | a parsed row and the labels cut from it have equally many entries, namely the row's field count plus one with timestamps; the last label is "timestamp" and the last value is the stamp |
| ParserSpec.LabelsRoundTrip | Assets/Scripts/Network.cs:127-154 | the labels joined with ',' give back the row less one trailing ','; the labels start with the row's literal fields |
| ParserSpec.FeatureLabels | Assets/Scripts/Network.cs:175-180 | one label per entry of the row; label `i` is "Feature " followed by `i + 1` |
| ParserSpec.FeatureNameInjective | Assets/Scripts/Network.cs:178 | distinct column numbers give distinct synthetic labels |
| ParserSpec.RowNonEmpty | Assets/Scripts/Network.cs:169 | a parsed row is empty exactly when its text is empty and there is no stopwatch, the one case where reading its first entry fails |
| ParserSpec.DeliverState | Assets/Scripts/Network.cs:164-190 | after a batch of completed rows, the first-row flag is cleared when there was a row, the stopwatch has started, and a session's first row has set the labels |
| ParserSpec.DeliverQueue | Assets/Scripts/Network.cs:164-190 | the queue gains every completed row except a session's first, each parsed, in order |
| ParserSpec.DeliverAppend | Assets/Scripts/Network.cs:162-191 | delivering two batches together is delivering one, then the other |
| ParserSpec.CompletedCount | Assets/Scripts/Network.cs:162-191 | one row per '\n' in the chunk; the stored fragment goes in front of the first row only |
| ParserSpec.FragmentCases | Assets/Scripts/Network.cs:162-195 | an empty chunk keeps the fragment; a chunk without '\n' replaces it; any other chunk is its complete lines followed by the new fragment, which holds no '\n' |
| ParserSpec.CompletedLines | Assets/Scripts/Network.cs:162 | a chunk completes rows exactly when it holds a complete line |
| ParserSpec.RestFree | Assets/Scripts/Network.cs:194-195 | a stored fragment never holds a '\n' |
| ParserSpec.FragmentOverwrite | Assets/Scripts/Network.cs:193-195 | the stream "12\n" yields the row "12" in one chunk, but "2" when sent as "1", "2", "\n" |
| ParserSpec.JoinedAgrees | Assets/Scripts/Network.cs:164 | the corrected parse completes the same rows as the parse as written, and keeps a different fragment only after a chunk without '\n' |
| ParserSpec.StreamJoinedWhole | Assets/Scripts/Network.cs:156-196 | however a stream is cut into chunks, the corrected parse completes the lines of the whole stream and keeps its unterminated tail |
| ParserSpec.AlignedAgrees | Assets/Scripts/Network.cs:156-196 | on a stream where no chunk without '\n' follows a stored fragment, the parse as written completes the same rows and keeps the same fragment as the corrected one: the lines and the unterminated tail of the whole stream |
| ParserSpec.TerminatedChunksAligned | Assets/Scripts/Network.cs:193-195 | a stream whose every chunk holds a '\n' is such a stream |
| ParserSpec.DeliverAtConstant | Assets/Scripts/Network.cs:164-190 | delivering a batch at one clock reading is delivering each of its rows at that reading |
| ParserSpec.DeliverAtAppend | Assets/Scripts/Network.cs:164-190 | delivering two batches of rows with their own readings together is delivering the first, then the second from where it leaves; it fails exactly when one of them does |
| ParserSpec.DeliverAtEffect | Assets/Scripts/Network.cs:110-190 | rows delivered at their own readings: the stopwatch starts at the first row's reading and every later reading is usable with it; a session's first row sets the labels; the first-row flag ends cleared |
| ParserSpec.DeliverAtQueue | Assets/Scripts/Network.cs:164-190 | rows delivered at their own readings: a session's first row is not queued, and every other row is, parsed at its own reading, in order |
| Parsing.Parser.constructor | Assets/Scripts/Network.cs:61-69 | a stopwatch exists exactly when timestamps are asked for; no fragment is stored and the next row is a first row |
| Parsing.Parser.ParseFields | Assets/Scripts/Network.cs:94-108 | one converted value per field of the row, in order |
| Parsing.Parser.ParseRow | Assets/Scripts/Network.cs:90-125 | the row's values, then the stamp; the stopwatch is started by the first row it sees |
| Parsing.Parser.ParseLabels | Assets/Scripts/Network.cs:127-154 | the row's literal fields, then "timestamp" when timestamps are on |
| Parsing.Parser.CompleteRow | Assets/Scripts/Network.cs:164-189 | one completed row changes the parser and the store as `DeliverRow` says: labels while the first-row flag is set, the queue afterwards |
| Parsing.Parser.CompleteLines | Assets/Scripts/Network.cs:158-191 | the loop delivers every row the chunk completes and stops at the start of the chunk's rest; the fragment is cleared exactly when a row was completed |
| Parsing.Parser.Parse | Assets/Scripts/Network.cs:156-196 | as written: delivers the rows the chunk completes, the stored fragment in front of the first, then stores the chunk's unterminated tail in place of the old fragment |
| Parsing.Parser.ParseJoined | Assets/Scripts/Network.cs:156-196 | corrected: delivers the complete lines of the stored fragment followed by the chunk, and keeps their rest, which holds no '\n' |
| Connections.ClosedAt | Assets/Scripts/Network.cs:246-250 | the chunks read before the first empty one, which signals that the peer closed |
| Connections.FeedRows | Assets/Scripts/Network.cs:244-254 | feeding a connection to Parse as written delivers the rows the chunks complete, in order, each at the clock reading of the chunk that completes it, and leaves the fragment the last chunks store |
| Connections.SessionEffect | Assets/Scripts/Network.cs:329-343 | whatever the clock readings, a session's first completed row sets the labels and is not queued; every later row is queued, parsed at the reading of the chunk that completed it, in order; the stopwatch starts at the first row's reading; the first-row flag ends cleared |
| Connections.FeedAligned | Assets/Scripts/Network.cs:244-254 | on a stream where no chunk without '\n' follows a stored fragment, feeding delivers the complete lines of the stored fragment followed by the whole stream and keeps its unterminated tail |
| Connections.AlignedFeedsAgree | Assets/Scripts/Network.cs:244-254 | on such a stream, feeding Parse as written and the corrected parse accept the same clock readings and end in the same state |
| Connections.JoinedFeedAtOneClock | Assets/Scripts/Network.cs:244-254 | corrected: feeding chunk by chunk at one clock reading delivers the complete lines of the stored fragment followed by the whole stream, however it is cut, and keeps its unterminated tail |
| Connections.FeedKeepsStopwatch | Assets/Scripts/Network.cs:329-343 | feeding a connection never restarts a running stopwatch and never removes or adds one |
| Connections.TimedFeedable | Assets/Scripts/Network.cs:313-316 | with timestamps and clock readings that do not go back, every chunk can be parsed |
| Connections.FragmentCarriesOver | Assets/Scripts/Network.cs:329-343 | accepting a connection keeps the stored fragment: when the next connection's first chunk holds a '\n', its first row starts with that fragment |
| Connections.Client.constructor | Assets/Scripts/Network.cs:230-233 | a client over the given store and port, whose parser has no stopwatch, no fragment and the first-row flag set |
| Connections.Client.Receive | Assets/Scripts/Network.cs:244-254 | every chunk up to the first empty one goes to Parse, in order, and the parser and store end as `Feed` of the chunks says |
| Connections.NewClient | Assets/Scripts/Network.cs:210-219 | a port below 1024 is refused; any other gives a new client with a new parser as above |
| Connections.Server.constructor | Assets/Scripts/Network.cs:313-316 | a server over the given store and port, whose parser has a stopped stopwatch, no fragment and the first-row flag set |
| Connections.Server.Serve | Assets/Scripts/Network.cs:329-343 | sets the first-row flag, then gives every chunk up to the first empty one to Parse, in order, at its clock reading; the parser and store end as `Feed` says |
| Connections.NewServer | Assets/Scripts/Network.cs:269-272 | a port below 1024 is refused; any other gives a new server with a new parser as above |
| StoreSpec.MinOfBounds | Assets/Scripts/PlottableData.cs:109-124 | a column's computed minimum is at most the seed and every value of the column, and is the seed or one of those values |
| StoreSpec.MaxOfBounds | Assets/Scripts/PlottableData.cs:109-124 | the same for the maximum |
| StoreSpec.Insert | Assets/Scripts/PlottableData.cs:162 | adding a new key to a sorted key list keeps it strictly sorted and adds exactly that key |
| StoreSpec.AddKey | Assets/Scripts/PlottableData.cs:156-164 | the ContainsKey test and Add keep the list strictly sorted, adding the value when it is new |
| StoreSpec.RankKeysValues | Assets/Scripts/PlottableData.cs:184-192 | a built rank list holds each value of the column exactly once, in increasing order |
| StoreSpec.SetDataValid | Assets/Scripts/PlottableData.cs:86-130 | SetData leaves a consistent store; it accepts exactly data with a non-empty first row, and then the feature count is that row's width |
| StoreSpec.AddPointValid | Assets/Scripts/PlottableData.cs:132-154 | AddData keeps the store consistent, and refuses only an empty first point on a store without data |
| StoreSpec.ColumnOkSnoc | Assets/Scripts/PlottableData.cs:140-153 | appending a point keeps a column consistent: its bounds widen to the point's value and its rank list gains it |
| StoreSpec.SetColumnRankIdempotent | Assets/Scripts/PlottableData.cs:178-193 | SetColumnRank builds a missing rank list of a feature column from the column's values, sorted; doing it twice is doing it once |
| StoreSpec.SetColumnRankNoOp | Assets/Scripts/PlottableData.cs:180-183 | on a consistent store, SetColumnRank of a valid column changes nothing |
| StoreSpec.ValidIndexSafe | Assets/Scripts/PlottableData.cs:628-635 | an index IsValidIndex accepts can index every point, both bound arrays and the rank lists, and its rank list exists |
| StoreSpec.AddAllSpec | Assets/Scripts/PlottableData.cs:166-172 | adding a batch point by point leaves a consistent store |
| StoreSpec.AddAllAppends | Assets/Scripts/PlottableData.cs:166-172 | on a store with data, a batch is appended whole, in order, and the feature count is kept |
| Plottables.PlottableData.constructor | Assets/Scripts/PlottableData.cs:8-67 | no data; every field index 0, the default of the auto-properties; sample rate 100 percent; every drill-down range [0, 1] |
| Plottables.PlottableData.IsValidIndex | Assets/Scripts/PlottableData.cs:628-635 | an index is valid exactly when the store holds data and the index is one of its features; the test for fewer than one feature adds nothing |
| Plottables.PlottableData.SetData | Assets/Scripts/PlottableData.cs:86-130 | the store becomes `SetDataSpec` of the old store and the data, stays consistent, and keeps the settings; on no data or an empty first point it reports failure with the feature count at 0, where the source throws ArgumentException |
| Plottables.PlottableData.ScanBounds | Assets/Scripts/PlottableData.cs:109-124 | the bound arrays end as every column's minimum and maximum over all points, seeded with the first point |
| Plottables.PlottableData.WidenBounds | Assets/Scripts/PlottableData.cs:113-123 | one more point widens every feature's bounds to it |
| Plottables.PlottableData.BuildRanks | Assets/Scripts/PlottableData.cs:126-129 | every feature's rank list is built from the data |
| Plottables.PlottableData.SetColumnRank | Assets/Scripts/PlottableData.cs:178-193 | the store becomes `SetColumnRankSpec` of the old store and the column |
| Plottables.PlottableData.UpdateColumnRank | Assets/Scripts/PlottableData.cs:156-164 | only the column's rank list changes, gaining the point's value |
| Plottables.PlottableData.AddData | Assets/Scripts/PlottableData.cs:132-154 | the store becomes `AddPointSpec` of the old store and the point, stays consistent, and keeps the settings |
| Plottables.PlottableData.WidenToPoint | Assets/Scripts/PlottableData.cs:140-151 | each feature's minimum is lowered and its maximum raised to the point's value, and its rank list gains that value |
| Plottables.PlottableData.AddDataBatch | Assets/Scripts/PlottableData.cs:166-172 | the store becomes `AddAllSpec` of the old store and the batch, and stays consistent |
| Plottables.PlottableData.GetPositionGettingFunction | Assets/Scripts/PlottableData.cs:341-371 | the selector is 0 to 7; its bit 1 is set exactly when the X index is valid, bit 2 for Y and bit 4 for Z |
| Plottables.PlottableData.GetPosition | Assets/Scripts/PlottableData.cs:382-516 | GetPosition0 to GetPosition7: each coordinate is the interpolation of its axis's field when the axis's bit is in the selector, and 0 otherwise |
| Plottables.PlottableData.PositionSelection | Assets/Scripts/PlottableData.cs:382-516 | the selected position function interpolates exactly the axes with a valid index and puts 0 on the others |
| Plottables.PlottableData.DrillDownValid | Assets/Scripts/PlottableData.cs:319-331 | a position passes only when no range is inverted and each coordinate lies between its range's minimum and maximum |
| Plottables.PlottableData.DrillDownBox | Assets/Scripts/PlottableData.cs:319-331 | a position is accepted exactly when each coordinate lies within its inclusive range, so the accepted positions form that box: any position between two accepted ones is accepted; nothing is accepted when a range is inverted; otherwise both corners are |
| CsvPlots.ClassifyHeaders | Assets/Scripts/CSVPlot.cs:50-74 | the header line is a data point exactly when every cell converts |
| CsvPlots.ClassifyHeadersFirstFailure | Assets/Scripts/CSVPlot.cs:53-56 | when not every cell converts, the first failing cell decides: titles when it is malformed, an uncaught overflow otherwise |
| CsvPlots.CellValue | Assets/Scripts/CSVPlot.cs:80-90 | a record cell that converts gives its value; a missing or failing cell leaves 0 |
| CsvPlots.RecordPoint | Assets/Scripts/CSVPlot.cs:79-91 | a record is a point with one value per column, each its cell's value |
| CsvPlots.HeaderPoint | Assets/Scripts/CSVPlot.cs:61-66 | a numeric header line is a point whose entries are the header cells' values |
| CsvPlots.RecordPoints | Assets/Scripts/CSVPlot.cs:77-92 | one point per record, in order |
| CsvPlots.ThrottledRateShows | Assets/Scripts/CSVPlot.cs:95-100 | above 20000 points, the sample rate shows exactly 20000 of them and is strictly between 0 and 100 percent; otherwise it is unchanged |
| CsvPlots.ImportedShape | Assets/Scripts/CSVPlot.cs:40-104 | nothing is imported exactly on a header overflow; otherwise every point is as wide as the header line, and there is one point per record plus one for a numeric header |
| CsvPlots.ImportedTitlesDistinct | Assets/Scripts/CSVPlot.cs:61-65 | one title per column, and the synthetic titles are pairwise distinct |
| CsvPlots.FieldsAsWrittenMisses | Assets/Scripts/CSVPlot.cs:117 | with 3 columns and the Z index at 5, the check as written keeps Z at 5, while the intended check repairs it |
| CsvPlots.FieldsAsWrittenPartial | Assets/Scripts/CSVPlot.cs:107-129 | on a table with at least one column, the check as written brings X, Y, size and colour into range, but repairs Z only when it is negative |
| CsvPlots.FieldsInRangeSound | Assets/Scripts/CSVPlot.cs:107-129 | the intended check brings all five indices into range and keeps the Z index exactly when it was in range or 0; it changes no other setting, is idempotent, and keeps settings already in range |
| CsvPlots.CSVPlot.EnsureFieldIndicesAreValid | Assets/Scripts/CSVPlot.cs:107-129 | as written: the five indices end as `FieldsAsWritten` of the old settings; no other field changes |
| CsvPlots.CSVPlot.EnsureFieldIndicesInRange | Assets/Scripts/CSVPlot.cs:107-129 | corrected: the five indices end as `FieldsInRange` of the old settings; no other field changes |
| CsvPlots.CSVPlot.ScanHeaders | Assets/Scripts/CSVPlot.cs:53-56 | the header loop's finding is `ClassifyHeaders` of the titles |
| CsvPlots.CSVPlot.PromoteHeaders | Assets/Scripts/CSVPlot.cs:61-66 | the numeric header line becomes the first point, and the titles become "Feature 0" onwards |
| CsvPlots.CSVPlot.ReadRecord | Assets/Scripts/CSVPlot.cs:79-91 | a record's point is `RecordPoint` of its cells |
| CsvPlots.CSVPlot.LoadPoints | Assets/Scripts/CSVPlot.cs:95-104 | above 20000 points the sample rate becomes `ThrottledRate`; the store becomes `SetDataSpec` of the old store and the points; no other setting changes |
| CsvPlots.CSVPlot.ReadParticles | Assets/Scripts/CSVPlot.cs:45-93 | the points are `ImportedPoints`, the titles `ImportedTitles`, and the titles are ready unless a header cell overflowed |
| CsvPlots.CSVPlot.WriteParticlesToParticleList | Assets/Scripts/CSVPlot.cs:40-105 | repairs the indices with the check as written; on a header overflow, stops with the store unchanged; otherwise throttles the rate and hands the points to SetData; after a successful load the X, Y, size and colour indices are in range, and the Z index is repaired only when it was negative |
| PlotColors.DropdownValueToColor | Assets/Scripts/Plot.cs:134-148 | values 0 to 7 give the palette entry in menu order; any other value gives white |
| PlotColors.ColorToDropdownValue | Assets/Scripts/Plot.cs:164-202 | the result is a menu value 0 to 7; a result below 7 is the value of an entry equal to the colour, and no earlier entry equals it |
| PlotColors.PaletteDistinct | Assets/Scripts/Plot.cs:138-145 | no two menu entries have the same colour |
| PlotColors.UnknownColorIsWhite | Assets/Scripts/Plot.cs:164-202 | a colour gets 7 exactly when it equals none of the first seven entries: white and every colour outside the menu |
| PlotColors.EntryMapsToIt | Assets/Scripts/Plot.cs:164-202 | a colour equal to entry `i` maps to `i`, so the order of the comparisons never matters |
| PlotColors.DropdownRoundTrip | Assets/Scripts/Plot.cs:134-202 | every menu value comes back from its colour; any other value comes back as 7 |
| PlotColors.ColorRoundTrip | Assets/Scripts/Plot.cs:134-202 | every palette colour comes back from its value, and every colour maps to a palette colour |

## Left out

**Runtime and platform**
- Threads and the lock in DataStore, sockets, DNS address selection, Listen/Accept, `ServerBase.GetIPAddress` and ASCII decoding are not modelled. A connection is the sequence of chunks its receive calls return.
- The clock is a parameter. Each Parse call reads it once, so every row of one chunk gets the same stamp; rows completed by different chunks get their chunks' readings.
- `float.Parse` is a parameter that returns a value, a format failure or an overflow. 32-bit floats are modelled as reals, so float rounding is not modelled. This covers stamps above 2^24 ms, the throttled rate and the colour channels.

**Rendering and UI**
- Unity rendering is not modelled: GetParticles, GetArrows, GetColor, GetSize, GetScale, GetRotation, the interpolation percentages, and the `PlottableData(float[][])` constructor.
- The rest of Plot.cs, the settings files and the CSV thread start-up (`ReadParticlesFromCSVFile`, `Update`) are not modelled.
- `Debug.Log` is left out.

**CSV input**
- The CSV reader is modelled as the header cells and each record's cells. A cell beyond the end of a record reads as 0, because the reader's exception is caught like a failed conversion.

**Weaker contracts**
- Parsing.Parser.Parse: requires a non-empty first row when the parser has no stopwatch (`CanDeliver`). There the source reads the first entry of an empty array and throws, which is not modelled.
- Parsing.Parser.CompleteRow: requires `CanDeliver` for its row, so the same throw on an empty first row without a stopwatch is not modelled.
- Parsing.Parser.CompleteLines: requires `CanDeliver` for the rows the chunk completes, for the same reason.
- Parsing.Parser.ParseJoined: requires `CanDeliver` for the rows it completes, for the same reason.
- Connections.Client.Receive: requires `Feedable`, which demands `CanDeliver` of every chunk it reads, for the same reason.
- Connections.Server.Serve: requires `Feedable`, which demands `CanDeliver` of every chunk it reads, for the same reason.
- Plottables.PlottableData.SetData: requires every point to be at least as wide as the first. The source throws on a narrower point while scanning, which is not modelled.
- Plottables.PlottableData.AddData: requires the point to be at least as wide as the feature count once there is data. The source throws otherwise.
- Plottables.PlottableData.AddDataBatch: requires every point to be wide enough as above.
- Plottables.PlottableData.UpdateColumnRank: requires the column's rank list to exist. The source dereferences a null list otherwise.
- Plottables.PlottableData.GetPosition: the interpolation percentage is a parameter, so its division by `max - min` is not modelled.
- Plottables.PlottableData.DrillDownValid: its own contract states only what a passing position implies; the converse, that every position inside all three ranges passes, is stated by DrillDownBox.
- CsvPlots.CSVPlot.WriteParticlesToParticleList: requires a conversion that never yields NaN, because points are reals. The header overflow that the source lets escape is modelled as the outcome `Overflowed`.
- PlotColors.ColorToDropdownValue: the engine's colour `==` is approximate: it holds when the squared distance of the two colours, as four-vectors, is below 0.00001². The model compares colours exactly. The palette entries are far apart, so only colours within that tolerance of an entry map differently.

## Findings

| source | as written | input that shows it | evidently intended | confidence | as-written member | corrected member |
|---|---|---|---|---|---|---|
| Assets/Scripts/Network.cs:193-195 | the unterminated tail of each chunk replaces the stored fragment, so a chunk without '\n' discards the text stored before it | the stream "12\n" sent as the chunks "1", "2", "\n" completes the row "2"; sent as one chunk it completes "12" | the tail extends the stored fragment, so rows do not depend on how the stream is cut | not executed | ParserSpec.FragmentOverwrite | Parsing.Parser.ParseJoined |
| Assets/Scripts/CSVPlot.cs:117 | the Z index test compares the Y index with the column count | 3 columns, every index 0 except Z at 5: Z stays 5, out of range | the Z index is compared with the column count | not executed | CsvPlots.FieldsAsWrittenMisses | CsvPlots.CSVPlot.EnsureFieldIndicesInRange |
