# System monitor core, modelled in Dafny

This project models the logic inside a small SDL system monitor. Two programs are covered.

- `hello.cpp` draws live memory and CPU graphs. Once a second it takes one reading in `getSystemUsage`:
  - memory occupancy from the `MemTotal:` / `MemAvailable:` lines of the memory counter file;
  - CPU load from the first CPU line's `user nice system idle` ticks, measured against the ticks seen on the previous call (kept in function-local statics).
  
  It appends both figures to two 100-sample history vectors. Each vector evicts its oldest sample once it grows past 100.
- `hello1.cpp` shows a process table. On every frame it:
  - runs `ps aux` through `awk` and skips the header line;
  - keeps each line that extracts as `pid cpu mem name`;
  - sorts the records by the column chosen through a header click (PID ascending, CPU% descending, MEM% descending, NAME ascending).
  
  It also collects a search query from keyboard events.

The counter files and the enumeration command become parameters:

- the memory counter text is its sequence of lines;
- the CPU counters are four integers;
- the command output is `Some(lines)`, or `None` when the pipe could not be opened.

The function-local static `(prevIdle, prevTotal)` is an explicit `CounterState` that each call takes and returns. Floats are exact `real`s. Integers are unbounded. Strings are `std::string`s of bytes: each Dafny `char` in a `string` stands for one C++ `char`, read as an unsigned byte. A UTF-8 multi-byte character is therefore several `char`s, a text-input event carries its UTF-8 bytes, a backspace removes one byte, and names compare byte by byte as `std::string`'s `operator<` does.

Modules:

- `Wrappers`: `Option`.
- `Sequences`: keeping the results of the elements a partial function accepts, in order. This is the shape of the "parse each line, skip failures" loop.
- `Tokens`: whitespace tokenisation as `>>` extraction sees a line, plus the join that prints tokens back.
- `Numerals`: integer and decimal tokens, and the formatters they are checked against.
- `Lexicographic`: `std::string`'s `operator<`.
- `SystemUsage`: `getSystemUsage`.
- `RollingWindow`: the history vectors.
- `GraphMonitor`: the sampling tick in `hello.cpp`'s `main`.
- `ProcessCensus`: `getProcesses` and the sort dispatch.
- `CensusUi`: `isInside`, header clicks and search-query edits in `hello1.cpp`'s `main`.

Behaviour of the code worth noting:

- CPU load is not clamped to [0, 100]. `SystemUsage.LoadIsNotClamped` exhibits a load of 150.
- The first CPU reading is measured against zero counters, so it reports the load since boot.
- A baseline of (10,0,0,90) followed by (20,0,0,170) is 90 elapsed ticks, 80 of them idle, so the load is 100/9 (`SystemUsage.BaselineThenSecondSample`).
- A zero `MemTotal` is not caught. The code divides by it and stores the non-finite result in the history. The model returns `None` and stores that `None`.
- The search query is collected but never used to filter the table (`CensusUi.Table`).
- Sort ties are left in an unspecified order (`std::sort` is not stable). The contracts promise only a permutation and the column order.
- A history eviction erases exactly one front element.

## Model

| member | source | states |
|---|---|---|
| SystemUsage.SampleCpu | hello.cpp:39-55 | When ticks elapsed (totalDiff > 0), load × totalDiff = 100 × (totalDiff − idleDiff). Otherwise the load is exactly 0. The load lies in [0,100] when 0 ≤ idleDiff ≤ totalDiff. The next state is the raw idle and total just read, whichever branch was taken. |
| SystemUsage.MemoryPercent | hello.cpp:37 | There is no figure exactly when the total is 0. Otherwise figure × total = 100 × (total − available). The figure lies in [0,100] when 0 < total and 0 ≤ available ≤ total. |
| SystemUsage.ScanMeminfoSpec | hello.cpp:22-35 | Characterises the line loop `ScanFrom` and the scan `ScanMeminfo` against reference definitions. Each line is read as `iss >> key >> value`: `KeyOf` is its first token and `ValueOf` its second token extracted as an integer. The available figure comes from the first `MemAvailable:` line, or is 0 if there is none. The total is the value on the last `MemTotal:` line before it, or 0 if there is none. |
| SystemUsage.ScanStopsAtAvailable | hello.cpp:31-34 | Lines after the first `MemAvailable:` line never change the scan's result. |
| SystemUsage.GetSystemUsage | hello.cpp:19-58 | One call reports the memory figure of the scanned counters and the CPU load against the carried state. The state it leaves is the raw ticks of this call. |
| SystemUsage.BaselineThenSecondSample | hello.cpp:39-55 | From zero counters, (10,0,0,90) reads as load 10; a following (20,0,0,170) reads as 100/9. |
| SystemUsage.IdleUnchangedIsFullLoad | hello.cpp:48-52 | Ticks elapsed with the idle counter unchanged give a load of exactly 100. |
| SystemUsage.LoadIsNotClamped | hello.cpp:52 | An idle counter that went backwards yields a load of 150: no clamp is applied. |
| RollingWindow.Filled | hello.cpp:108-109 | A new history holds exactly 100 samples, all equal to the neutral value. |
| RollingWindow.Push | hello.cpp:125-129 | On a full history, one tick keeps the length at 100, evicts exactly the oldest sample, and puts the new sample last. Below capacity the sample is only appended. |
| RollingWindow.PushAllFull | hello.cpp:123-129 | `PushAll` applies one push per sample. After any run of appends a full history is still full. It holds exactly the last 100 values of old contents followed by the new samples. |
| RollingWindow.WindowHoldsLatest | hello.cpp:123-129 | Once 100 or more samples have been appended, the history is exactly the latest 100 of them, oldest first. |
| GraphMonitor.Tick | hello.cpp:123-129 | Each of the two full histories advances by exactly one sample: its front is dropped and this tick's reading is appended. The counter state becomes the raw ticks. |
| GraphMonitor.RunAppendsReadings | hello.cpp:114-129 | `Run` is the sampling loop of `main`, one tick per input. A run of ticks appends exactly its readings to each history, one per tick and in order. It leaves the raw ticks of its last input as the counter state. |
| GraphMonitor.HistoriesAfterRun | hello.cpp:108-129 | From start-up, after any number of ticks both histories hold exactly 100 samples: the zeros not yet evicted, then every reading so far. |
| Tokens.WordsJoin | hello1.cpp:33-35 | Tokenising a line of space-joined tokens gives back exactly those tokens. |
| Numerals.IntRoundTrip | hello1.cpp:35 | An integer printed in decimal extracts back to itself. |
| Numerals.DecimalRoundTrip | hello1.cpp:35 | `ParseDecimal` is the `float` extraction of the cpu and mem fields. A percentage printed with one decimal extracts to exactly the tenths it stands for. |
| Numerals.Int32RoundTrip | hello1.cpp:35 | A pid printed in decimal extracts back into the 32-bit field unchanged. |
| Numerals.ParseInt32 | hello1.cpp:19-35 | Extraction into the 32-bit `pid` succeeds exactly when the token is an integer within the 32-bit range. |
| ProcessCensus.ParseFields | hello1.cpp:33-36 | A line yields a record exactly when it has at least four tokens and the pid, cpu and mem tokens all extract. The record holds the extracted pid, cpu and mem and the fourth token as the name. The pid is within the 32-bit range, and the name is a single whitespace-free token. |
| ProcessCensus.NonNumericFieldDropped | hello1.cpp:35-36 | A line whose pid, cpu or mem token holds a character no numeral contains, such as a letter, is dropped. |
| Numerals.DecimalRejects | hello1.cpp:35 | A token holding a character other than a digit, '.', '+' or '-' does not extract as a decimal. |
| Numerals.Int32Rejects | hello1.cpp:35 | A token holding a character other than a digit, '.', '+' or '-' does not extract as an `int`. |
| ProcessCensus.LineRoundTrip | hello1.cpp:32-36 | `ParseLine` is the extraction `iss >> pid >> cpu >> mem >> name` on a whole line. A table line printed from (pid, cpu, mem, name) extracts to exactly that record, with or without the trailing newline `fgets` keeps. |
| ProcessCensus.NewlineIgnored | hello1.cpp:32-35 | The newline that `fgets` keeps at the end of a line does not change what the line extracts to. |
| Tokens.TrailingSpaceIgnored | hello1.cpp:32-35 | A whitespace character at the end of a line adds no token. |
| ProcessCensus.TrailingTokensIgnored | hello1.cpp:35 | Tokens after the name do not change what a line extracts to. |
| ProcessCensus.GetProcesses | hello1.cpp:25-41 | An unopened pipe gives no records. Every record comes from a line after the header that extracts to it. |
| ProcessCensus.ReadProcesses | hello1.cpp:30-37 | The line-by-line loop appends each extracting record and computes exactly the census. |
| ProcessCensus.KeepAppend | hello1.cpp:32-37 | Records keep input order: those of earlier lines precede those of later lines. |
| ProcessCensus.KeepSound | hello1.cpp:32-37 | `Keep` is the loop's filter over the lines after the header. Every kept record is what some input line extracts to. |
| ProcessCensus.KeepComplete | hello1.cpp:32-37 | Every line that extracts contributes its record. |
| ProcessCensus.MalformedLineDropped | hello1.cpp:35-36 | A line that does not extract is dropped without disturbing the records around it or their order. |
| ProcessCensus.HeaderIgnored | hello1.cpp:31 | The first line never contributes, whatever it says. |
| ProcessCensus.SortBy | hello1.cpp:126-133 | The sorted list is a permutation of its input: no record is added, lost or altered. |
| ProcessCensus.SortBySorted | hello1.cpp:126-133 | In the sorted list, no later record is strictly before an earlier one under the column's comparison. |
| ProcessCensus.InsertKeepsSorted | hello1.cpp:126-133 | Inserting a record into a list sorted by a column keeps it sorted. |
| ProcessCensus.SortedByMeansInOrder | hello1.cpp:126-133 | `ProcessCensus.Less` is the comparison lambda of each column. Being sorted under the comparator is equivalent to column order on every pair: PID non-decreasing, CPU and MEM non-increasing, NAME lexicographically non-decreasing. |
| ProcessCensus.LessAsymmetric | hello1.cpp:127-133 | Each column's comparison is asymmetric. |
| ProcessCensus.NotLessTransitive | hello1.cpp:127-133 | Each column's "not before" relation is transitive, as `std::sort` needs. |
| ProcessCensus.Snapshot | hello1.cpp:125-133 | One refresh lists exactly the parsed records (as a multiset), ordered by the selected column. |
| Lexicographic.LessIsPrefixOrFirstDifference | hello1.cpp:133 | One name is before another exactly when it is a proper prefix of it, or the names first differ where it has the smaller character. |
| Lexicographic.Transitive | hello1.cpp:133 | The name order is transitive. |
| Lexicographic.Total | hello1.cpp:133 | Two different names are always ordered one way or the other. |
| Lexicographic.Irreflexive | hello1.cpp:133 | No name is before itself. |
| CensusUi.InsideByOffset | hello1.cpp:52-54 | `IsInside` depends only on the point's offset from the top-left corner. A rectangle of negative width or height contains no point. |
| CensusUi.EdgesInclusive | hello1.cpp:52-54 | For the hit test `IsInside`, all four corners of a rectangle are inside. One step past any edge is outside. |
| CensusUi.HeadersDisjoint | hello1.cpp:70 | No point lies in two column headers. |
| CensusUi.ClickFrom | hello1.cpp:88-90 | The header loop from any index on: a hit on one of the remaining headers selects its column, and a miss on all of them keeps the current column. `ClickSort` runs it from the first header. |
| CensusUi.ClickSelectsHeader | hello1.cpp:88-90 | A click inside header i selects column i. A click outside all four leaves the selection unchanged. |
| CensusUi.NoClickKeepsSort | hello1.cpp:79-95 | Events other than mouse clicks never change the selected column. |
| CensusUi.DefaultOrderIsCpu | hello1.cpp:72 | The column starts as CPU. Until a header is clicked, the table is ordered by CPU, descending. |
| CensusUi.EditQuery | hello1.cpp:93-94 | Text input appends its text. Backspace on a non-empty query removes exactly its last character. Every other case leaves the query unchanged. |
| CensusUi.HandleEvent | hello1.cpp:79-95 | Quit stops the loop. Only a mouse click can change the column, and a click never touches the query. |
| CensusUi.HandleEvents | hello1.cpp:79-95 | After one frame's event queue the loop is still running exactly when it was running before and no queued event was a quit. Events after a quit in the same queue are still handled: that is `CensusUi.QuitKeepsHandling`. |
| CensusUi.QuitKeepsHandling | hello1.cpp:79-80 | A quit followed by more events in the same queue handles all of them: the result is that of handling the rest from a stopped state. |
| CensusUi.BackspacesTrim | hello1.cpp:94 | n backspaces drop the last n characters of the query. Backspacing an empty query changes nothing. |
| CensusUi.TypingThenErasing | hello1.cpp:93-94 | Typing a text and then one backspace per character restores the query. |
| CensusUi.Table | hello1.cpp:125-133 | The shown table holds every parsed record whatever query was typed, ordered by the selected column. |

## Left out

- `log.cpp`: the `top`/`free` pipes, `fscanf`, CSV writing, the endless two-minute loop and the header rewrite are all I/O with no logic of their own.
- Window, renderer and font setup, `renderText`, `renderGrid`, `renderGraph`, window resizing, and the row cutoff at `HEIGHT - 40` are presentation only.
- The graph and log buttons launch other programs through `system` (foreign calls). Their hit tests are the same `isInside` as the headers.
- Event polling, `SDL_Delay` and `sleep_for` are not modelled. Events arrive as a sequence, and ticks are driven by the caller.
- The counter files, the `ps` pipe and their failure modes are parameters. An unreadable CPU counter file leaves the tick variables uninitialised in the source. The model always takes four given tick counts.
- The 256-byte `fgets` buffer can split a long line in two. Lines are taken whole.
- Extraction is modelled at token level. The numeric-prefix behaviour of `>>` is not modelled: a token such as `12abc` would extract 12 and leave `abc` for the next field. Exponent, hexadecimal, infinity and NaN float spellings are also not modelled.
- SystemUsage.ValueOf: a value token that does not extract gives 0, as C++11 extraction stores. A line with a key but no value token also gives 0, where the source leaves an indeterminate value.
- SystemUsage.SampleCpu: the `long` tick sum and the meminfo values are unbounded integers; 64-bit overflow is not modelled, and counters never come close to it.
- SystemUsage.MemoryPercent: returns `None` for a zero total, where the source produces an infinite or NaN float.
- Float rounding is not modelled: loads, memory figures and process percentages are exact reals.
- Float range: process percentages are not bounded to the `float` range.
- Filtering by the search query is not modelled, because the source never applies the query to the table.
- ProcessCensus.SortBy: the ordering among equal keys is one valid `std::sort` outcome. The contract, like `std::sort`, promises nothing about ties.
