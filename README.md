# coffee: a Dafny model of the dashboard core

`coffee` is a macOS terminal dashboard. It shows three panels side by side:
- a big five-row clock with the machine's uptime;
- a battery panel drawn from `system_profiler SPPowerDataType`, cached on disk for 300 seconds;
- a network panel listing the interfaces of `system_profiler SPNetworkDataType`.

A loop in `main()` redraws the panels. It reads the clock on every fourth beat, fetches the battery panel again every 300 seconds and the network panel every 3600 seconds. Each fetch is wrapped so that an ordinary error becomes a red placeholder panel. Only `sys.exit` (Python's `SystemExit`) gets through a wrapper and ends the process.

The model is split into these modules:
- `Wrappers`: `Option`, and `Outcome`, which is either a value or a raised exception. The exception is `Error` for any `Exception` or `SystemExit` for `sys.exit`.
- `Text`: Python's `c * n`, `sep.join`, `"".join`, `split("\n")` and `str(n)` on sequences of characters.
- `Json`: the parsed output of `system_profiler` as a small algebraic datatype. A run of the tool is `Unavailable` (missing, or a non-zero exit), or it printed text that did or did not parse as JSON.
- `Panels`: a Rich panel as an abstract record of content, border style and title. A table row is its cells, style and `end_section` flag.
- `Clock`: `n2s`, `get_uptime_str`, `DIGITS_5` and `generate_ascii_time`.
- `Power`:
  - `get_bar`, `safe_get`, `get_power_info` and the readings of `get_power_visual`.
  - A `PowerCache` class for `PowerManager`'s cache file and the global `cache_mtime`.
- `Network`: `get_network_panel`:
  - the extraction loop;
  - the stable sort by service order;
  - the active/inactive partition;
  - the row loops, which raise when a type or name is not a string or null;
  - the exits.
- `Dashboard`:
  - the safe wrappers;
  - one pass of `main()`'s loop as a function `Step` over a `LoopState`;
  - a `Dashboard` class whose `Tick` and `RunLoop` update the loop's variables in place and are proved equal to `Step` and `Run`.

Time, where an exception is raised, what `system_profiler` prints and whether the cache file can be written are the inputs of a tick (`TickInput`). The stop flag is state: `Dashboard.Dashboard.RequestStop` sets it, as the signal handler does, and so does an exception in the loop body.

The unit test at `tests/test_main.py:48` expects `get_uptime_str(90061)` to contain `"0001"`. At `src/coffee/main.py:103-104`, `n2s` puts the padding zeros and the significant digits in separate markup tags, so the text holds `[#666666]000[/#666666][bold cyan]1[/bold cyan]` instead. The model follows the code, and `Clock.UptimeStrExample` states the text the code produces.

## Model

| member | source | states |
|---|---|---|
| Clock.PaddedValue | src/coffee/main.py:98 | For `n >= 0`, the zero-padded text `f"{n:0{d}d}"` is all digits. It is `d` wide, or as wide as `str(n)` if that is wider, and it reads back as `n`. |
| Clock.LeadingZerosOfPadding | src/coffee/main.py:99 | The leading-zero count of `m` zeros followed by text that does not start with `0` is exactly `m`. |
| Clock.MatchPadding | src/coffee/main.py:99 | The regex `^(0*)($\|[1-9]\d*$)` splits `m` zeros followed by digits without a leading zero into exactly those zeros and those digits. |
| Clock.PaddedParts | src/coffee/main.py:98-99 | The padded text is some zeros followed by digits that do not start with `0`. For `n = 0` there are no digits and `max(d, 1)` zeros. For `n > 0` the digits are `str(n)` and the zeros are `d - len(str(n))`, or none. |
| Clock.N2sSegments | src/coffee/main.py:98-105 | The regex always matches a non-negative padded number. Grey part followed by cyan part is the padded number. The grey part is all `0`. The cyan part is empty or starts with 1-9. `n2s` styles these two parts. |
| Clock.N2sPositive | src/coffee/main.py:98-105 | For `n > 0`, `n2s(n, d)` is `d - len(str(n))` grey zeros (or none when `str(n)` is wide enough) followed by `str(n)` in cyan. |
| Clock.NoGreyWhenWide | src/coffee/main.py:99-104 | If `n > 0` has at least `d` digits, there is no grey segment; the whole number is cyan. |
| Clock.N2sZero | src/coffee/main.py:99-104 | `n2s(0, d)` is `d` grey zeros (one when `d = 0`) and no cyan segment. |
| Clock.N2sNegative | src/coffee/main.py:99-102 | A negative number never matches the regex, so the fallback shows the whole padded text, minus sign first, in cyan. |
| Clock.N2sPadsFortyTwo | tests/test_main.py:25-28 | `n2s(42, 4)` is grey `00` then cyan `42`. |
| Clock.N2sFillsWidth | tests/test_main.py:30-33 | `n2s(1234, 4)` is cyan `1234` with no grey tag. |
| Clock.N2sPadsFive | tests/test_main.py:35-38 | `n2s(5, 2)` is grey `0` then cyan `5`. |
| Clock.N2sOne | src/coffee/main.py:98-105 | `n2s(1, 4)` is grey `000` then cyan `1`. `n2s(1, 2)` is grey `0` then cyan `1`. |
| Clock.UptimeDecomposes | src/coffee/main.py:117-120 | `days*86400 + hours*3600 + minutes*60 + seconds == up_for`, with hours < 24, minutes < 60 and seconds < 60. It is the only such split, for any integer `up_for` (floor division, as in Python). |
| Clock.UptimeExample | tests/test_main.py:41-53 | 90061 seconds is 1 day, 1 hour, 1 minute and 1 second. 0 seconds is all zeros. |
| Clock.UptimeStrExample | src/coffee/main.py:108-121 | The uptime text of 90061 seconds is grey `000`, cyan `1`, then grey `0` and cyan `1` three times, with the code's spacing between them. |
| Clock.TableWellFormed | src/coffee/main.py:46-64 | The glyph of any character has 5 rows of equal width, none holding a newline. An unknown character gets the blank glyph. |
| Clock.SegmentShape | src/coffee/main.py:259-263 | The segment a character adds to rows 0-4 is as wide as its glyph and holds no newline. |
| Clock.RowParts | src/coffee/main.py:258-266 | Each of the 5 rows is one leading space plus, for each character, its glyph width plus one, and holds no newline. |
| Clock.RowsEquallyWide | src/coffee/main.py:257-268 | All 5 rows have the same length for any input. |
| Clock.AsciiTimeFiveLines | src/coffee/main.py:257-268 | `generate_ascii_time(s).split("\n")` gives back exactly the 5 rows, so it has 5 lines for any input, unknown characters included. |
| Clock.SegmentsAgree | src/coffee/main.py:261 | Two strings whose characters have the same glyphs, position by position, give the same segments in every row. |
| Clock.UnknownRendersAsSpace | src/coffee/main.py:261 | Replacing a character missing from `DIGITS_5` by a space leaves the output unchanged. |
| Clock.LineSegmentsSnoc | src/coffee/main.py:260-266 | One more character adds its row segment and a space to that row's segments. |
| Clock.RowSegments | src/coffee/main.py:260-266 | The inner loop builds, for row `i`, the leading space followed by each character's segment and a space. |
| Clock.GenerateAsciiTime | src/coffee/main.py:248-268 | The nested loops return the newline-join of the 5 rows, which splits into exactly 5 lines. |
| Power.Copies | src/coffee/power.py:185-190 | There are `height` body rows, all the same. |
| Power.FullCellsBounds | src/coffee/power.py:181 | `w1 = p*width//100` is the percentage of the width rounded down: `0 <= w1 <= width`. Below 100% it leaves room for the partial character (`w3 >= 0`). At 100% it is the whole width. |
| Power.BarGeometry | src/coffee/power.py:169-190 | The percentage is clamped to 0..100 and the height to 1..4, and the width is `10*height`. Below 100% a row's cells are `w1` full blocks, `BAR_CHARS[min(p%10, 8)]` and `w3 = width - w1 - 1 >= 0` spaces. At 100% they are `width` full blocks. Either way they are `width` wide. |
| Power.PartialAndCap | src/coffee/power.py:177-189 | The partial index `min(p%10, 8)` is a valid index into the 9 bar characters. The cap width `(h-1)*2//3 + 1` is 1, 1, 2, 3 for heights 1-4. |
| Power.BodyRowsFront | src/coffee/power.py:185-190 | The rows the loop appends are one row and a newline in front of the rest. |
| Power.BodyRowsAsJoin | src/coffee/power.py:185-192 | The appended body rows followed by the bottom border are the newline-join of the rows and the border. |
| Power.BarPiecesOneLine | src/coffee/power.py:179-192 | Neither border nor a body row holds a newline of its own. |
| Power.FramedJoin | src/coffee/power.py:179-192 | Top border, newline, body rows and bottom border are the newline-join of border, rows and border. |
| Power.BarTextAsJoin | src/coffee/power.py:158-193 | The bar is the newline-join of the top border, `height` copies of the body row and the bottom border. |
| Power.BarLines | src/coffee/power.py:158-193 | The bar splits into exactly `height + 2` lines: top border, `height` identical body rows, bottom border. |
| Power.BarRow | src/coffee/power.py:185-190 | One iteration of the loop writes the body row of the specification: the full cells at 100%, and `w1` blocks, the partial character and `w3` spaces below it. |
| Power.GetBar | src/coffee/power.py:158-193 | `get_bar` returns the bar built from the clamped inputs (see BarGeometry and BarLines). |
| Power.LookupConcat | src/coffee/power.py:204-213 | Following a path in two legs is the same as following it at once. |
| Power.LookupStep | src/coffee/power.py:206-212 | One more key leads somewhere exactly when the value reached so far is a mapping that holds it. |
| Power.SafeGet | src/coffee/power.py:196-213 | `safe_get` returns `data` for no keys. Otherwise it returns the value reached by following the keys in order, or `default` as soon as a key is missing or a value on the way is not a mapping. |
| Power.Classify | src/coffee/power.py:119-133 | The loop succeeds exactly when every entry is a mapping. Otherwise it raises an ordinary error. |
| Power.ClassifyStep | src/coffee/power.py:119-133 | Each entry changes the dictionary only in its own slot, or not at all. |
| Power.ClassifyOnlyNamed | src/coffee/power.py:121-133 | Every key of `pj` is one of the four slots and comes from some entry named for it. |
| Power.ClassifyHasNamed | src/coffee/power.py:121-133 | Every entry with a recognised `_name` leaves its slot filled. |
| Power.ClassifySlots | src/coffee/power.py:119-133 | A slot is in `pj` exactly when some entry is named for it, and `pj` holds no other keys. |
| Power.ClassifyLast | src/coffee/power.py:121-133 | A slot holds the last entry named for it, with `_name` popped: a later duplicate overwrites an earlier one. |
| Power.ClassifyEntries | src/coffee/power.py:119-133 | The loop of `get_power_info` computes the classified dictionary, or raises at the first entry that is not a mapping. |
| Power.ClassifyRaisedExtends | src/coffee/power.py:119-133 | Once an entry has raised, later entries do not matter. |
| Power.GetPowerInfo | src/coffee/power.py:99-139 | `get_power_info` returns the classified dictionary of the `SPPowerDataType` list. |
| Power.PowerInfoOutcomes | src/coffee/power.py:99-139 | `get_power_info` exits exactly when `system_profiler` is missing, fails or prints text that is not JSON. Its result, if any, is a mapping. |
| Power.CacheFetchesIffStale | src/coffee/power.py:57-155 | `get_power_data` runs `system_profiler` exactly when the cache file is missing or strictly more than 300 seconds old. A fresh cache is returned as it is, leaving the file unchanged, whatever the tool would print. |
| Power.RefreshThenHit | src/coffee/power.py:82-155 | A successful refresh writes the fresh data with the current time and sets `cache_mtime` to it. Every later call within 300 seconds returns that same data without a fetch. A call more than 300 seconds later fetches again. |
| Power.PowerCache.constructor | src/coffee/power.py:31 | `cache_mtime` starts at 0 and the file is what is on disk. |
| Power.PowerCache.IsCacheStale | src/coffee/power.py:57-68 | The result is staleness as defined. `cache_mtime` takes the file's mtime when the file exists. |
| Power.PowerCache.GetCache | src/coffee/power.py:70-80 | The parsed file. A missing or undecodable file gives the empty mapping, and any other read error raises. |
| Power.PowerCache.WriteCache | src/coffee/power.py:82-97 | On success the file holds the data with the current time. On failure the process exits and the file is unchanged. |
| Power.PowerCache.GetPowerData | src/coffee/power.py:141-155 | The result, the new file and the new `cache_mtime` are those of the cache specification `PowerData`. |
| Power.ParseIntRoundTrip | src/coffee/power.py:235-238 | `int(str(n))` is `n`, for any integer and for the text form of the reading. |
| Power.ReadingsDefaults | src/coffee/power.py:229-310 | With no battery or charger data, every reading takes its default: 0%, not charging, no warning, "Unknown" health, "N/A" capacity, cycles and watts, and charger not connected. |
| Power.ReadingsPercent | src/coffee/power.py:229-238 | A stored charge, as a number or as its decimal text, is the percentage shown. |
| Power.PowerVisualShowsCharge | src/coffee/power.py:216-335 | The battery panel has a "dim green" border. Its bar has `height + 2` lines whose body rows show the clamped charge across the full width. The fill is green exactly when charging. |
| Network.Chars | src/coffee/network.py:90 | Iterating a string yields its characters, one per element. |
| Network.EmptyEntryDefaults | src/coffee/network.py:83-114 | An entry with no fields gives type "Unknown", name "N/A", empty addresses, MAC "N/A" and order "N/A". |
| Network.AddressesJoined | src/coffee/network.py:88-95 | In any entry whose address family holds a list of address strings, the field is those addresses joined with ", ", or "" for an empty list. |
| Network.AddressesAbsent | src/coffee/network.py:88-95 | An entry without the address family, or whose family has no `Addresses`, shows "" for it. |
| Network.ExtractFields | src/coffee/network.py:83-114 | Any dict entry extracts exactly when its address fields and MAC do. The record then holds each field the entry has, and the default for each one it lacks: type "Unknown", name "N/A", order "N/A". |
| Network.MacAbsent | src/coffee/network.py:98-102 | An entry with neither an Ethernet nor a Wi-Fi section shows MAC "N/A". |
| Network.AllStringsOf | src/coffee/network.py:88-95 | A list of strings is read back as those strings. |
| Network.MacPreference | src/coffee/network.py:98-102 | The MAC is the Ethernet MAC if set, else the Wi-Fi MAC if set, else "N/A". |
| Network.ExtractAll | src/coffee/network.py:83-114 | The loop succeeds exactly when every entry extracts. It then yields exactly one record per entry, in order. A failure is an ordinary error. |
| Network.ExtractInterfaceErrors | src/coffee/network.py:83-114 | Extracting one entry can only raise an ordinary error, never exit. |
| Network.ExtractInterfaces | src/coffee/network.py:83-114 | The extraction loop returns the records of `ExtractAll`. |
| Network.StrLeTotal | src/coffee/network.py:119 | Python's string `<=` is total. |
| Network.StrLeTransitive | src/coffee/network.py:119 | Python's string `<=` is transitive. |
| Network.StrLeReflexive | src/coffee/network.py:119 | Python's string `<=` is reflexive. |
| Network.StrLeAntisymmetric | src/coffee/network.py:119 | Python's string `<=` is antisymmetric. |
| Network.OrderLeTotal | src/coffee/network.py:119 | The order comparison is total. |
| Network.OrderLeTransitive | src/coffee/network.py:119 | The order comparison is transitive. |
| Network.OrderEquivalence | src/coffee/network.py:119 | Among orders Python can compare, two compare equal exactly when they are the same number or the same string. |
| Network.WithKeyConcat | src/coffee/network.py:119 | The records with a given order, taken from a concatenation, are those of each part, in order. |
| Network.SortedPrefix | src/coffee/network.py:119 | A prefix of a sorted list is sorted. |
| Network.InsertCount | src/coffee/network.py:119 | Inserting adds exactly that record. |
| Network.InsertBounded | src/coffee/network.py:119 | Inserting keeps every order below a common bound. |
| Network.InsertFacts | src/coffee/network.py:119 | Inserting into a sorted list gives a sorted permutation with the record added. |
| Network.SortFacts | src/coffee/network.py:119 | The sort gives a sorted permutation of its input. |
| Network.WithKeySingle | src/coffee/network.py:119 | A single record has the order `key` or does not. |
| Network.KeysApart | src/coffee/network.py:119 | Records whose orders differ cannot both have the order `key`. |
| Network.InsertKeepsKeyOrder | src/coffee/network.py:119 | Inserting places the record after every existing record with an equal order. |
| Network.InsertPastLast | src/coffee/network.py:119 | Moving a record past a strictly larger last record keeps the order among records with equal orders. |
| Network.SortIsStable | src/coffee/network.py:119 | The sort is stable: records with equal orders keep their relative input order. |
| Network.SortByOrder | src/coffee/network.py:119 | `interfaces_info.sort(key=order)` succeeds exactly when Python can compare the orders. It then gives a sorted, stable permutation of the records, and otherwise it raises an ordinary error. |
| Network.ActiveMembers | src/coffee/network.py:120-124 | Active holds exactly the records with a non-empty IPv4 field, and inactive exactly the rest. |
| Network.PartitionCount | src/coffee/network.py:120-124 | Active and inactive together are a permutation of the input. |
| Network.PartitionLength | src/coffee/network.py:120-124 | `len(active) + len(inactive) == len(input)`. |
| Network.PartitionSorted | src/coffee/network.py:120-124 | Each part keeps the sorted order. |
| Network.PartitionConcat | src/coffee/network.py:120-124 | Splitting a concatenation is splitting each part and concatenating the results. |
| Network.PartitionSingle | src/coffee/network.py:120-124 | One record goes to active when it has an IPv4 address, and to inactive otherwise. |
| Network.PartitionKeepsKeyOrder | src/coffee/network.py:120-124 | The split is stable. Among records whose orders compare equal, the active ones keep their relative order in the active list, and the inactive ones in the inactive list. |
| Network.PartitionFacts | src/coffee/network.py:116-124 | Membership, permutation, length, sortedness and stability of the partition at once. |
| Network.SortedSnoc | src/coffee/network.py:120-124 | Appending a record no smaller than any other keeps a list sorted. |
| Network.Partition | src/coffee/network.py:120-124 | The partition loop appends, in order, the active records to one list and the others to the other. |
| Network.AddRows | src/coffee/network.py:145-163 | The loops finish exactly when every record's type and name are a string or null, which `table.add_row` accepts. Otherwise they raise an ordinary error. On success the rows are every active record with style "none", with `end_section` on the last one only, then every inactive record with style "dim". |
| Network.RowsSections | src/coffee/network.py:145-163 | Exactly one row ends a section, the last active one, and none does when nothing is active. The "none" rows are exactly the active ones, and every row is "none" or "dim". |
| Network.RowsOf | src/coffee/network.py:145-163 | The rows as a value satisfy the same description as AddRows. |
| Network.RowsForUnique | src/coffee/network.py:145-163 | The description fixes the rows uniquely. |
| Network.GetNetworkPanel | src/coffee/network.py:47-171 | `get_network_panel` returns the titled panel of the sorted, partitioned rows, exits, or raises as the specification `NetworkPanelOf` says. It also raises when a row cannot be added. |
| Network.NetworkPanelExits | src/coffee/network.py:57-76 | The process exits exactly when `system_profiler` is missing, fails or prints invalid JSON. |
| Network.EmptyNetworkPanel | src/coffee/network.py:79-171 | No interfaces, or no `SPNetworkDataType` at all, still gives the titled "dim green" panel, with no rows. |
| Network.AllShownMembers | src/coffee/network.py:145-163 | Whether every row can be added depends only on which records there are, not on their positions. |
| Network.AllShownSorted | src/coffee/network.py:116-163 | After the sort and the split, every row can be added exactly when every extracted record's row can. |
| Network.NetworkPanelAfterSort | src/coffee/network.py:116-171 | Once extraction and the sort succeed, the result is the table panel if every record's type and name can go in a cell, and an ordinary error otherwise. |
| Network.NetworkPanelRows | src/coffee/network.py:79-171 | Once extraction and the sort succeed, there is a panel exactly when every record's type and name are a string or null, and an ordinary error otherwise. The panel then has one row per entry. The active rows (non-empty IPv4) come first and the inactive rows after, each group in service order. Together they are a permutation of the records. Records with equal orders keep their order from the output of `system_profiler`. |
| Dashboard.SafeWrapper | src/coffee/main.py:222-245 | A wrapper returns a fetched panel unchanged and turns an ordinary error into its placeholder. Only the exit passes through. |
| Dashboard.SafePowerFetch | src/coffee/main.py:222-232 | The battery placeholder is red. A successful fetch draws the battery panel from the cached data. The fetch exits exactly when `get_power_data` exits. |
| Dashboard.SafeNetworkFetch | src/coffee/main.py:235-245 | The network placeholder is red. A successful fetch shows the network panel. The fetch exits only when `system_profiler` cannot run or prints no JSON. |
| Dashboard.UnrenderableNetworkPlaceholder | src/coffee/main.py:235-245 | A record whose type or name is a number, boolean, list or mapping makes the network fetch show the red placeholder instead of the table. |
| Dashboard.NumericNamePlaceholder | src/coffee/main.py:235-245 | One interface whose `_name` is the number 5 gives the red placeholder. |
| Dashboard.StoppedStaysStopped | src/coffee/main.py:296 | Once the stop flag is set, or the process has exited, no loop body runs again. |
| Dashboard.ClockReadEveryFourthBeat | src/coffee/main.py:297-299 | `ct` is read afresh only on ticks with `beats % 4 == 0`. |
| Dashboard.GatesFetchWhenDue | src/coffee/main.py:334-340 | The battery panel is fetched again exactly when `ct - last_power_update >= 300`, and then `last_power_update := ct`. Otherwise panel, cache and timestamp are unchanged. The network panel works the same with 3600. |
| Dashboard.CompletedTickShowsFrame | src/coffee/main.py:342-345 | A completed tick shows the network, battery and time panels, in that order, and counts one beat. |
| Dashboard.ProgramTimePanel | src/coffee/main.py:313-332 | The time panel holds the five-line clock of the time text and the uptime line, in a "dim green" border. |
| Dashboard.FaultStops | src/coffee/main.py:346-352 | An exception in the body sets the stop flag (unless an exit came first) and counts no beat. |
| Dashboard.ExitsOnlyOnFetchExit | src/coffee/main.py:334-345 | A tick ends the process exactly when a fetch that was due exited. |
| Dashboard.ErrorsDoNotExit | src/coffee/main.py:222-352 | With `main()`'s own fetches, only `sys.exit` in `get_power_data` or `get_network_panel` ends the process. Without a fault, the loop goes on. |
| Dashboard.ProgramFetchesOk | src/coffee/main.py:222-245 | Outside `SystemExit`, `main()`'s wrapped fetches always return a panel. |
| Dashboard.NoExitWhenFetchesOk | src/coffee/main.py:334-352 | A tick whose fetches return panels does not end the process. |
| Dashboard.StartKeepsCadence | src/coffee/main.py:281-288 | After the start, `last_power_update = last_network_update = ct`, so neither refresh is overdue. |
| Dashboard.StepKeepsCadence | src/coffee/main.py:296-345 | With a clock that does not go back, each tick keeps `0 <= ct - last_power_update < 300` and `0 <= ct - last_network_update < 3600` while the loop runs. |
| Dashboard.RunKeepsCadence | src/coffee/main.py:296-352 | The cadence invariant holds over every run whose clock does not go back. |
| Dashboard.BeatsBounded | src/coffee/main.py:345 | `beats` never decreases and grows by at most one per tick. |
| Dashboard.StoppedOrDone | src/coffee/main.py:296 | A stopped loop, or a run with no ticks, leaves the state as it was. |
| Dashboard.Dashboard.GetPowerVisualSafe | src/coffee/main.py:222-232 | Returns the wrapped battery panel and moves the cache as `PowerVisualSafe` says. |
| Dashboard.Dashboard.GetNetworkPanelSafe | src/coffee/main.py:235-245 | Returns the wrapped network panel. |
| Dashboard.Dashboard.constructor | src/coffee/main.py:281-288 | Fetches both panels once and sets `beats = 0` and `ct = last_power_update = last_network_update` to the clock. |
| Dashboard.Dashboard.RequestStop | src/coffee/main.py:219 | Sets the stop flag and nothing else. |
| Dashboard.Dashboard.UpdateClock | src/coffee/main.py:297-299 | Reads the clock on every fourth beat. |
| Dashboard.Dashboard.UpdatePower | src/coffee/main.py:334-336 | The battery gate. |
| Dashboard.Dashboard.UpdateNetwork | src/coffee/main.py:338-340 | The network gate. |
| Dashboard.Dashboard.DrawTimePanel | src/coffee/main.py:315-332 | The time panel of the time text and the uptime. |
| Dashboard.Dashboard.UpdatePanels | src/coffee/main.py:334-340 | Both gates, the battery's first. The network gate is skipped once the process has exited. |
| Dashboard.Dashboard.Render | src/coffee/main.py:342-352 | Shows the frame and counts a beat, or sets the stop flag when showing it raises. |
| Dashboard.Dashboard.RunBody | src/coffee/main.py:297-352 | One pass of the loop body, once `ct` is read. |
| Dashboard.Dashboard.Tick | src/coffee/main.py:296-352 | One check of the stop flag and one pass of the body update the variables exactly as `Step` says. |
| Dashboard.Dashboard.RunLoop | src/coffee/main.py:296-352 | The whole loop updates the variables exactly as `Run` says, so every lemma about `Run` holds of it. |

## Left out

- Subprocess, terminal and threads are not modelled: the `pmset` commands (`configure_power_settings`), `caffeinate`, the keypress thread (`wait_for_keypress`), `termios` and the signal handlers. Setting the stop flag is modelled as `Dashboard.Dashboard.RequestStop`, and what `system_profiler` prints is an input.
- Time zones, `datetime.now`, `strftime` and every date, IST and title line of the time panel are not modelled. The formatted time of day is an input of each tick.
- `Dashboard.TimePanel`: holds only the big clock and the uptime line. It leaves out the title, the subtitle (memory and time zone), the IST lines and the header texts.
- Floats are not modelled. Time is in integer seconds, so `up_for` is an integer. The memory reading (`psutil`) and the terminal-resize check are left out.
- Rich layout and styles are not modelled: `Live`, `Columns`, `Align`, the table's column definitions and header styles and the panel subtitles. A panel is an abstract record.
- Rich's cell check in `Table.add_row` is modelled only for decoded JSON values (`Network.Renderable`). A string or a null is accepted, and anything else raises. A null cell is kept as it is rather than drawn as an empty cell.
- The global `BATTERY_FILL_COLOR` and `icon_style` mutations are not kept as state. The fill style is passed to `get_bar` as `Power.FillColor` computes it.
- The health, capacity, cycle count and charger lines of the battery panel are recorded as readings, not formatted as text.
- `PowerManager.__init__`'s `mkdir` and `is_mac` are not modelled.
- Errors from `os.stat` other than a missing file are not modelled. Writing the cache either succeeds or exits (`sys.exit`), and a failed write leaves the file as it was.
- JSON decoding and file I/O are not modelled. The parsed tree and the cache file are values.
- `Dashboard.Step`: reads one clock instant per tick. The battery fetch and the cache timestamp use that same instant (`t.clock`), and the start uses one instant for `ct` and both fetches. In the program the cache file's time is taken after `system_profiler` returns, so it is later than the `ct` that opened the gate. The gate opens at `ct - last_power_update >= 300` (main.py:334), but the cache is stale only when strictly more than 300 seconds old (power.py:66). So the fetch at the next gate can still find the cache fresh and return the old data (`Power.RefreshThenHit` covers the exact 300 seconds), and the battery readings then change about every 600 seconds, not every 300.
- `Dashboard.RunKeepsCadence`: needs a clock that does not go back, which `time.time()` does not promise.
- Dashboard loop lemmas: stated for any fetch functions (`Calls`). `Program` holds the ones `main()` calls. Where an exception escapes the loop body is an input (`Fault`).
- `Power.PyInt`: reads an optional sign followed by decimal digits. It does not accept the surrounding whitespace, the underscores or the non-ASCII decimal digits (such as full-width digits) that Python's `int()` allows.
- `Network.JoinAddresses`: treats a non-empty mapping of addresses as an error, where Python would join its keys. The model's maps have no key order.
- `Network.SortByOrder`: Python comparing a number with a string, or comparing lists and mappings, is modelled as an ordinary error. The model does not compare list-valued orders element by element.
- `Network.Sort`: the in-place `interfaces_info.sort` is modelled as a stable insertion sort on a sequence, an independent reference for Python's sort, not as an update in place.
- `SLEEP_INTERVAL` and the `time.sleep` call are not modelled. The refresh rate only matters as "every fourth beat".
- The `dev.py` tooling and the package metadata are not part of this model.
