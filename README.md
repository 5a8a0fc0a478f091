# S3 BMS dashboard: the data core in Dafny

This project models the data path of the S3 Racing battery-management
dashboard. Each poll cycle runs three legs against the BMS web server:

- `main_data` reads the pack voltage, current, state of charge and
  temperatures from the `Parametersatz` payload of `main_data.shtml`;
- `ucell` reads the cell voltages from the `PSet` payload and the pack
  topology from the `PSet0` payload of `ucell.shtml`;
- `tcell` reads the cell temperatures.

The results are joined into one `Data` snapshot. The application polls at
most once per `poll_rate` milliseconds and keeps at most one request in
flight.

The model has seven modules, one file each:

- `Wrappers` holds `Option` and `Result`.
- `Ints` holds the `u16` and `u32` machine integers.
- `Scrape` is the regex extraction of `key = "..."`. It is a literal search
  for the first `key = "` and the next quote. It is proved equal to the
  leftmost match of the regex `key = "([^"]*)"`.
- `Fields` covers three things:
  - `str::split(',')` and its inverse;
  - the `FromStr` parses the decoders use;
  - the `Split<char>` cursor with `parse_next` and `skip`, as a class
    whose method updates its position.
- `Cells` is the cell-voltage arithmetic:
  - the `skip(2)`/`unwrap_or(0)` decoding;
  - the truncating raw mean;
  - the sanitising pass, in place on an array;
  - `voltage_stats` as a loop with a u32 sum;
  - the 72-cell right/left partition and `overall`.
- `Api` covers the legs:
  - the page is an input, either HTTP body text or a transport error
    message;
  - a leg either returns a `Result` or panics;
  - `main_data` and `ucell` are specification functions plus methods that
    drive the cursor;
  - `join_task`, `Request::is_finished` and `Request::join` are modelled
    over the outcomes of the three legs.
- `App` is `DashboardApp::poll_data`, in two forms:
  - the class `DashboardApp` with the fields `poll_rate`, `last_poll`,
    `task`, `data` and `error`;
  - the pure transition `Poll`, with lemmas over any sequence of polls.

Each leg's result has three forms: `Returned(Ok(_))`, `Returned(Err(_))`
or `Panicked`. The decoders panic on these conditions:

- an `unwrap` on a missing capture;
- the integer division by `voltage.len()` on an empty cell list;
- `voltage_stats` over an empty left partition, which happens with 72
  cells or fewer.

Fetch errors are `Value not found`, `Error parsing value` or a transport
error. `join_task` maps a returned error to `Error::Fetch` and a panic to
`Error::Unexpected`.

## Model

| member | source | states |
|---|---|---|
| Scrape.Find | src/api.rs:9-12 | The result is the least index at or after `from` where the pattern occurs, or None when it occurs nowhere from there on |
| Scrape.Capture | src/api.rs:9-12 | A captured payload contains no `"` and is shorter than the page |
| Scrape.MatchAtOpening | src/api.rs:9-12 | A match of `key = "([^"]*)"` at `i` starts with `key = "`; its group is the text after it, and a closing quote follows inside the page |
| Scrape.MatchAtUnique | src/api.rs:9-12 | Two matches at the same index have the same group, because `[^"]*` must stop at the first quote |
| Scrape.CaptureMatches | src/api.rs:9-12 | A successful capture is the group of a match at the first occurrence of `key = "` |
| Scrape.CaptureNoneIffNoMatch | src/api.rs:133 | The capture is absent exactly when the regex matches nowhere in the page, which is when `captures(..).unwrap()` panics |
| Scrape.CaptureIsLeftmostMatch | src/api.rs:9-12 | The capture is `v` exactly when `v` is the group of the leftmost match of the regex (both directions) |
| Fields.IndexOf | src/api.rs:134 | The first occurrence of the separator, or the length when there is none; no separator before it |
| Fields.Split | src/api.rs:134 | `split(',')` yields between one piece and one more piece than the payload has characters, none of which contains the separator |
| Fields.JoinSplit | src/api.rs:134 | Joining the pieces of a split with the separator gives back the payload |
| Fields.SplitJoin | src/api.rs:178 | Splitting a join of separator-free pieces gives back exactly those pieces, empty ones included |
| Fields.DigitsValueDecimal | src/api.rs:180 | The digit value of a decimal rendering is the number rendered |
| Fields.ParseU16Decimal | src/api.rs:180 | `parse::<u16>` of a rendered u16, with or without a leading `+`, gives it back |
| Fields.ParseU16Rejects | src/api.rs:180 | `parse::<u16>` rejects numbers above 65535, every text containing a minus sign, the empty text and a lone `+`; `parse::<usize>` rejects every text containing a minus sign |
| Fields.UnsignedRejectsMinus | src/api.rs:180 | The unsigned `FromStr` rejects every text that contains a minus sign |
| Fields.ParseU16 | src/api.rs:180 | `parse::<u16>`: an optional `+` then one or more decimal digits, values above 65535 rejected (no contract of its own; its round trip and rejections are `ParseU16Decimal` and `ParseU16Rejects`) |
| Fields.ParseUsize | src/api.rs:208-212 | `parse::<usize>` on a 64-bit target: the same syntax, values of 2^64 or more rejected (no contract of its own; see `ParseU16Rejects`) |
| Fields.ParseInt | src/api.rs:137-155 | The integer texts that `parse::<f32>` accepts: an optional sign and one or more digits, read exactly (no contract of its own; its round trip is `ParseIntDecimal`) |
| Fields.FieldAt | src/api.rs:319-326 | What `parse_next` yields at index i: `Value not found` past the end, `Error parsing value` on a field that does not parse, else the value (no contract of its own; `FieldCursor.ParseNext` is proved to compute it) |
| Fields.ParseIntDecimal | src/api.rs:137-155 | The main decoder's parse of a rendered integer, negative ones included, gives it back |
| Fields.FieldCursor.constructor | src/api.rs:134 | A fresh cursor is at the first field of the payload |
| Fields.FieldCursor.Next | src/api.rs:320 | `iter.next()` yields the field at the position and advances, or yields None at the end and stays there |
| Fields.FieldCursor.Skip | src/api.rs:328-332 | `skip(n)` advances by `n` but never past the end, and never fails |
| Fields.FieldCursor.ParseNext | src/api.rs:319-326 | `parse_next` at the end gives `Value not found`. On a field that does not parse it gives `Error parsing value`, otherwise the parsed value. It advances by one field, or stays at the end |
| Cells.DecodeCells | src/api.rs:174-181 | The cell list of a `PSet` payload: the fields after the first two, each read with `unwrap_or(0)` (no contract of its own; its length and entries are `DecodeCellsPositional`) |
| Cells.ParseCellsAt | src/api.rs:180-181 | The cell list has one entry per field, and entry k is `parse::<u16>().unwrap_or(0)` of field k |
| Cells.DecodeCellsPositional | src/api.rs:174-181 | After `skip(2)` the list holds `max(n-2, 0)` cells, and cell k is the reading of field k+2 |
| Cells.CellReadingZero | src/api.rs:180 | A cell reads 0 exactly when its field is not a u16 or is zero; otherwise it is the parsed value |
| Cells.SeqMin | src/api.rs:272-275 | The running minimum is an element that is at most every element |
| Cells.SeqMax | src/api.rs:276-278 | The running maximum is an element that is at least every element |
| Cells.SumBounds | src/api.rs:279-283 | The sum lies between n times the minimum and n times the maximum |
| Cells.SumAtMost | src/api.rs:279 | The sum of n u16 samples is at most n times 65535 |
| Cells.Mean | src/api.rs:183 | The truncated mean lies between the minimum and the maximum and is the floor of sum/len |
| Cells.Stats | src/api.rs:267-291 | `min` and `max` are elements bounding all cells, `min ≤ avg ≤ max`, `delta = max - min`, and `avg` is the floor of sum/len |
| Cells.StatsStep | src/api.rs:272-281 | One loop step extends the running sum, minimum and maximum of a prefix by the next cell. The u32 sum cannot overflow for at most 65537 cells |
| Cells.VoltageStatsOf | src/api.rs:267-291 | The loop with its u32 sum and length computes the `Stats` of the series |
| Cells.Replace | src/api.rs:186-188 | A reading within 3000–4200 is kept; any other becomes the average |
| Cells.Sanitized | src/api.rs:184-190 | The pass over a whole list keeps its length (each entry is given by `SanitizedAt`) |
| Cells.SanitizedAt | src/api.rs:184-190 | The pass keeps the length; each reading outside 3000–4200 becomes the average, and the others keep value and order |
| Cells.SanitizeInPlace | src/api.rs:184-190 | The in-place pass over the array leaves exactly the sanitised list |
| Cells.SanitizeInRangeUnchanged | src/api.rs:186 | A list already within 3000–4200 is left unchanged |
| Cells.SanitizeIdempotent | src/api.rs:184-190 | A second pass with the same average changes nothing |
| Cells.SanitizedReadings | src/api.rs:184-190 | After the pass every reading is in range or equals the average. With an in-range average, all readings are in range |
| Cells.SanitizeSingleOutlier | src/api.rs:183-190 | With one outlier, only that reading changes, and it becomes the raw mean |
| Cells.SanitizeExample | src/api.rs:183-190 | [3000, 4200, 3700, 5000] has raw mean 3975, which replaces 5000 |
| Cells.Combine | src/api.rs:195-202 | `overall` keeps the raw average; its max and min are those of the two partitions, and `delta = max - min` does not underflow |
| Cells.SeqMinConcat | src/api.rs:196 | The minimum of a concatenation is the smaller of the two minima |
| Cells.SeqMaxConcat | src/api.rs:195 | The maximum of a concatenation is the larger of the two maxima |
| Cells.CombineCoversAll | src/api.rs:192-202 | Combining the stats of the first 72 cells and of the rest gives the min, max and delta of the whole list |
| Api.FirstFailureNone | src/api.rs:136-155 | A positional plan reads without error exactly when every position is present and parses |
| Api.FirstFailureMissing | src/api.rs:324 | When the last position is past the payload and every present one parses, the plan fails with `Value not found` |
| Api.DecodeMain | src/api.rs:136-155 | The `skip`/`parse_next` chain over the `Parametersatz` fields, stopping at the first error (no contract of its own; `MainPlan` proves it equal to the reference plan) |
| Api.MainPlan | src/api.rs:136-155 | `main_data`'s skip/parse chain fails exactly when the reference plan over fields 1, 4, 7, 10, 13, 16, 19 does, with the same (first) error. On success it needs 20 fields and holds the parses of those fields |
| Api.MainShortPayload | src/api.rs:136-155 | Fewer than 20 fields always fail. If every present plan field parses, the failure is `Value not found` |
| Api.ReadMain | src/api.rs:134-155 | Driving the cursor with `skip(1)`, then `skip(2)` before each `parse_next`, computes the main decoding |
| Api.ReadTemperatures | src/api.rs:145-165 | The four temperature reads continue the main decoding from field 8 |
| Api.MainData | src/api.rs:128-166 | A transport error is returned as a fetch error, and the leg panics exactly when the page has no `Parametersatz` payload |
| Api.RunMainLeg | src/api.rs:128-166 | The leg gives the `main_data` outcome: a transport error, a panic on a missing `Parametersatz`, or the decoding of its payload |
| Api.DecodeTopology | src/api.rs:204-212 | The five `parse_next` calls over the `PSet0` fields (no contract of its own; `TopologyPlan` proves it equal to the reference plan) |
| Api.TopologyPlan | src/api.rs:204-212 | The five `parse_next` calls on `PSet0` fail exactly when the plan over fields 0–4 does, with the same error. On success they give the usize parses of those fields |
| Api.ReadTopology | src/api.rs:205-212 | Five consecutive `parse_next` calls compute the topology decoding |
| Api.CellVoltages | src/api.rs:183-202 | The voltage part of `ucell`, None where the source panics (no contract of its own; see the three lemmas below) |
| Api.CellVoltagesDefined | src/api.rs:183-193 | The voltage part exists exactly when there are more than 72 cells; otherwise the division at line 183 or 283 panics |
| Api.CellVoltagesPartitions | src/api.rs:183-193 | The stored list is the raw list, sanitised with the raw mean when `safe`, and of the same length. `right` and `left` are the stats of its first 72 cells and of the rest |
| Api.CellVoltagesOverall | src/api.rs:183-202 | `overall` is the raw mean with the min, max and delta of the whole stored list; without `safe` it equals the stats of that list |
| Api.ComputeCellVoltages | src/api.rs:174-202 | The array-based computation gives the voltage part of `ucell`, panicking in the same cases |
| Api.UcellData | src/api.rs:168-220 | A transport error is returned as a fetch error, and a page without a `PSet` payload panics (the full panic condition is `UcellPanics`) |
| Api.RunUcellLeg | src/api.rs:168-220 | The leg gives the `ucell` outcome for the page |
| Api.UcellPanics | src/api.rs:168-220 | `ucell` panics exactly when `PSet` is missing, there are 72 cells or fewer, or `PSet0` is missing |
| Api.AssembleContents | src/api.rs:204-219 | A returned `Ucell` carries the voltage part and the five topology fields it was built from |
| Api.UcellContents | src/api.rs:168-220 | A returned `Ucell` has both payloads present and more than 72 cells. Its voltage part and topology are the decodings of the page |
| Api.JoinTask | src/api.rs:120-126 | A returned value passes through. A returned error becomes `Fetch` and a panic becomes `Unexpected`; Unexpected occurs exactly on a panic |
| Api.MissingKeyIsUnexpected | src/api.rs:133 | A page where the regex matches nowhere makes the join report `Unexpected`, for `main_data` and for `ucell` |
| Api.IsFinished | src/api.rs:104-109 | A request is finished exactly when all three of its tasks are |
| Api.FinishedWhenAllDone | src/api.rs:104-109 | With each leg's finished flag latched at its completion step, the request is finished exactly from the step at which its last leg completes, and false while any leg is outstanding |
| Api.FinishedStays | src/api.rs:104-109 | Once a request is finished it stays finished at every later step |
| Api.Join | src/api.rs:111-117 | The join succeeds exactly when all three tasks returned `Ok`, and then holds their three values |
| Api.JoinFirstFailure | src/api.rs:111-117 | The join fails exactly when some leg fails, with the error of the first failing leg in the order main, ucell, tcell |
| App.Poll | src/app.rs:126-151 | A call reports whether it spawned and whether it joined, never both. A spawn happens only with no task in flight, exactly when `last_poll + poll_rate < now`; it sets `last_poll` to `now` and marks the task in flight. A join happens exactly when a task in flight is finished, and frees the slot. Success replaces the data and clears the error; failure keeps the data and records `Fetch` or `Unexpected`. Otherwise nothing changes, and only a spawn moves `last_poll` |
| App.AtMostOneInFlight | src/app.rs:126-151 | Over any sequence of polls, the spawns and joins that the calls perform alternate, so no call spawns while a fetch is in flight and none joins without one. The replay ends in the final task slot |
| App.StartsRespectRate | src/app.rs:141-149 | Over any sequence of polls, each fetch starts more than `poll_rate` after the previous start |
| App.DashboardApp.constructor | src/app.rs:29-41 | The defaults: poll rate 2000, `last_poll` 0, no task, no data, no error |
| App.DashboardApp.PollData | src/app.rs:126-151 | The method's new state and the spawn or join it records are those of `Poll`. `pollRate` is unchanged. The recorded history still alternates and ends in the current task slot |

## Left out

- HTTP (`ureq::get(..).call()`, `into_string`, the URL formats at src/api.rs:129, 169 and 223): a leg's page is an input, either the body text or the transport error message.
- `fetch` (src/api.rs:89-102) and threads: spawning is not modelled. A `Request` is three tasks, each with a finished flag and the outcome `join` would report. Joining does not block.
- The regex engine and `lazy_static`: the four patterns are literal-prefix searches, proved equal to the leftmost-match semantics of `key = "([^"]*)"`.
- `tcell` and `temp_stats` (src/api.rs:222-317) work in `f32` and are not modelled. The third task's value type is a parameter.
- The `/ 1000.0` and `/ 10.0` scaling of the main values (src/api.rs:137-155) is `f32` and not modelled. `Api.Main` holds the raw integers.
- Fields.ParseInt: `parse::<f32>` is modelled only on integer texts (optional sign, digits). Decimal points, exponents, `inf` and `nan`, which `f32` also accepts, are rejected.
- Cells.VoltageStatsOf: requires at most 65537 cells, the largest count whose u16 sum fits the u32 accumulator. More cells would overflow at src/api.rs:279.
- Api.ComputeCellVoltages: requires at most 65537 raw cells, for the same reason.
- Api.RunUcellLeg: requires each page's `PSet` list to hold at most 65537 cells, for the same reason.
- The `usize` sum at src/api.rs:183 is unbounded here. With at most 65537 cells it cannot overflow a 64-bit `usize`.
- `usize` is taken as 64 bits wide for the topology parse.
- `last_poll + poll_rate` (src/app.rs:144) is computed in `u128`; the model uses unbounded naturals.
- The clock `now()` (src/app.rs:165-170): its reading is the `now` parameter of `PollData`.
- App.StartsRespectRate: takes one `poll_rate` for the whole sequence of polls. The UI can change `poll_rate` between polls (src/app.rs:57); that is not modelled, and `PollData` keeps `pollRate` unchanged.
- The UI (`update`, src/app.rs:43-124), `heatmap_color` (src/app.rs:154-163), persistence with serde, and the `ip` and `heatmap_delta` settings are not modelled. `DashboardApp` keeps only the fields `poll_data` touches.
- src/main.rs is not part of this model.

## Notes on the source

- A missing key is not a fetch error: the code calls `unwrap()` on the capture (src/api.rs:133, 173, 204), so the leg panics and `join_task` reports `Error::Unexpected` (see `Api.MissingKeyIsUnexpected`).
- src/app.rs:146 calls `api::fetch(&ip)` with one argument, but `fetch` takes `(ip, safe)` and returns a `Request` rather than a `Data` result. The model therefore takes the snapshot type of `DashboardApp` as a parameter. The outcome of the spawned task is supplied to `PollData` directly.
- The sanitising replacement value is the raw mean, computed before the pass (src/api.rs:183). `overall.avg_voltage` is that raw mean. Its min, max and delta come from the stored, possibly sanitised, list.
