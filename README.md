# Serial sensor plotter: acquisition core

A model of the acquisition logic of `exg/scripts/PlotSerialData.py`, with proofs about it. The script reads sensor frames from a serial link and plots temperature and pressure. The model keeps only the integer and sequence logic behind that:

- **The frame synchroniser and decoder** (`ReadThread.run`, `ReadThread.process_data`).
  - It hunts byte by byte for the marker `0x85 0x75`.
  - Once synchronised, it reads 21-byte frames and checks the marker on each one. A bad marker drops it back to hunting.
  - It decodes a payload by the high nibble of its type byte: `0x1` gives nine big-endian 16-bit temperatures, `0x2` gives six big-endian 24-bit pressures, and any other nibble gives nothing.
- **The two shared sample lists** (`DataGen.next_temperature`, `DataGen.next_pressure`). The read thread appends to them; the redraw timer takes them whole.
- **The redraw tick** (`on_redraw_timer`).
  - A history longer than 5000 is cleared.
  - The drained samples are appended.
  - When the pre-tick length is a positive multiple of 72, the floor of the mean of a 72-value block is published.
- **The axis bounds** `draw_plot` computes for each channel.
- **The parameter command** (`OnClickSetPara`). The Gain, Channel and Rate fields are read with `string.atoi`, clamped to 7, 3 and 8, and joined into `"FC" + gain + channel + rate`.
- **The single-slot mailbox.** `cmd_write` carries the command to `WriteThread`, which writes it and empties the slot.

## Modules

| Module | File | What it holds |
|---|---|---|
| `Wire` | `wire.dfy` | Marker and frame constants, and `Decode` (one payload to readings). The device's big-endian packing serves as the decoder's reference, with the round-trip proved. |
| `Sync` | `sync.dfy` | The synchroniser as a value-level state machine. `Next` is one pass of the loop; `Run` is several passes. It carries the transition lemmas and the hunt/resynchronisation lemmas. |
| `Serial` | `serial.dfy` | The serial device as a class: the bytes not yet read, and the log of commands written. |
| `Samples` | `samples.dfy` | `SensorData`, the two shared lists, with the drain methods. It also holds a trace model of appends and drains. |
| `Acquisition` | `read_thread.dfy` | `ReadThread`, whose fields `sync` and `syncLastByte` are updated in place, with `ProcessData` and one loop pass `RunOnce`, both proved against `Sync.Next` and `Wire.Decode`. |
| `Stats` | `stats.dfy` | Python's `sum`, `min` and `max` on lists of integers. |
| `History` | `history.dfy` | `Tick` and `TickAverage`: what one redraw tick does to one channel's history. |
| `Axis` | `axis.dfy` | `AxisBounds` for one channel, and the lower bound as the source writes it (see Findings). |
| `Commands` | `commands.dfy` | `Atoi` (Python 2 `int(s, 10)`), `Show` (`str` on naturals), `Clamp` and `Command`. |
| `Mailbox` | `mailbox.dfy` | `CommandSlot` (the global `cmd_write`), `WriteThread` with one loop pass, and a trace model of stores and writer passes. |
| `Plot` | `graph_frame.dfy` | `GraphFrame` without widgets: the two histories, the shown averages, the three parameter texts, the redraw tick and the Set handler. |

## Model

| member | source | states |
|---|---|---|
| Wire.KindOf | exg/scripts/PlotSerialData.py:414-420 | The masked test `b & 0xF0` selects temperature exactly when the byte shifted right by four (its high nibble) is 1, and pressure exactly when it is 2. |
| Wire.KindOfNibble | exg/scripts/PlotSerialData.py:414-420 | The same selection with the high nibble read as a number: temperature exactly when `b / 16` is 1, pressure exactly when it is 2. |
| Wire.Be16 | exg/scripts/PlotSerialData.py:418 | The shift-and-or of two bytes is `hi * 256 + lo`, which lies in [0, 65535]. |
| Wire.Be24 | exg/scripts/PlotSerialData.py:424 | The shift-and-or of three bytes is `b0 * 65536 + b1 * 256 + b2`, which lies in [0, 2^24 - 1]. |
| Wire.Temperatures | exg/scripts/PlotSerialData.py:416-419 | Exactly nine values, the k-th being `buf[s+1+2k]*256 + buf[s+2+2k]`, each in [0, 65535]. |
| Wire.Pressures | exg/scripts/PlotSerialData.py:422-425 | Exactly six values, the k-th being `buf[s+1+3k]*65536 + buf[s+2+3k]*256 + buf[s+3+3k]`, each in [0, 2^24 - 1]. |
| Wire.Decode | exg/scripts/PlotSerialData.py:414-427 | Nibble 1: exactly nine temperatures, the k-th being `buf[s+1+2k]*256 + buf[s+2+2k]`, and no pressures. Nibble 2: exactly six pressures in closed form, in range, and no temperatures. Any other nibble: nothing. |
| Wire.TemperatureRoundTrip | exg/scripts/PlotSerialData.py:417-418 | Decoding a payload packed from nine 16-bit values gives back exactly those values, in order. |
| Wire.PressureRoundTrip | exg/scripts/PlotSerialData.py:423-424 | Decoding a payload packed from six 24-bit values gives back exactly those values, in order. |
| Sync.Next | exg/scripts/PlotSerialData.py:432-453 | One pass of the loop reads at least one byte and never more than are available. A pass that leaves the reader unsynchronised yields no readings. |
| Sync.Run | exg/scripts/PlotSerialData.py:430-453 | Running n passes consumes at least n bytes, and what is left unread is a suffix of the input. Zero passes always succeed. |
| Sync.UnsyncedStep | exg/scripts/PlotSerialData.py:433-444 | Unsynchronised, the step synchronises if and only if the remembered byte is 0x85 and the new byte is 0x75. It then decodes the next 19 bytes from offset 0. Otherwise it reads one byte, remembers it and yields nothing. |
| Sync.LostSync | exg/scripts/PlotSerialData.py:447-452 | A 21-byte frame without the marker yields nothing and resets the state to unsynchronised with remembered byte 0. So the next single byte cannot complete a marker. |
| Sync.InSync | exg/scripts/PlotSerialData.py:447-453 | A marked frame is decoded from offset 2 and the state is kept. An unknown type byte yields nothing and does not break synchronisation. |
| Sync.FramedPayload | exg/scripts/PlotSerialData.py:447-453 | A synchronised reader fed a marker plus payload consumes 21 bytes, stays synchronised and decodes that payload. |
| Sync.TemperatureFrameRoundTrip | exg/scripts/PlotSerialData.py:447-453 | A synchronised reader fed a packed temperature frame yields exactly the nine values packed. |
| Sync.PressureFrameRoundTrip | exg/scripts/PlotSerialData.py:447-453 | A synchronised reader fed a packed pressure frame yields exactly the six values packed. |
| Serial.SerialPort.Read | exg/scripts/PlotSerialData.py:435-447 | A blocking read of n bytes returns the next n bytes the device sent, in order, and removes exactly those from the unread input. |
| Serial.SerialPort.Write | exg/scripts/PlotSerialData.py:469 | Writing a command appends it to the device's command log and changes nothing else. |
| Sync.Hunting | exg/scripts/PlotSerialData.py:433-444 | Before the first marker, each pass reads one byte, stays unsynchronised and yields nothing. |
| Sync.SyncAtFirstMarker | exg/scripts/PlotSerialData.py:433-441 | From any unsynchronised state, the pass that reads the byte completing the first marker synchronises. That pass yields exactly the decoded 19 bytes that follow; nothing was yielded before it. |
| Sync.Resynchronises | exg/scripts/PlotSerialData.py:432-453 | Whatever garbage precedes a marker ending at position j, the loop is synchronised after at most j + 1 passes, having read at most j + 20 bytes. |
| Acquisition.ReadThread.constructor | exg/scripts/PlotSerialData.py:405-406 | A new reader is unsynchronised with remembered byte 0. |
| Acquisition.ReadThread.ProcessData | exg/scripts/PlotSerialData.py:410-427 | The field-by-field loops append exactly the decoded temperatures, or pressures, to the shared lists, and leave the other list unchanged. |
| Acquisition.ReadThread.AppendTemperatures | exg/scripts/PlotSerialData.py:416-419 | The nine-iteration loop appends to the temperature list exactly the nine decoded values, in field order. |
| Acquisition.ReadThread.AppendPressures | exg/scripts/PlotSerialData.py:422-425 | The six-iteration loop appends to the pressure list exactly the six decoded values, in field order. |
| Acquisition.ReadThread.RunOnce | exg/scripts/PlotSerialData.py:432-453 | One loop pass moves the fields to the state `Sync.Next` gives and consumes exactly the bytes it counts. It appends exactly its readings to the shared lists and writes nothing to the device. |
| Samples.SensorData.constructor | exg/scripts/PlotSerialData.py:33-34 | Both shared sample lists start empty. |
| Samples.SensorData.NextTemperature | exg/scripts/PlotSerialData.py:68-75 | Returns the temperature list as it was, in arrival order, and leaves it empty. |
| Samples.SensorData.NextPressure | exg/scripts/PlotSerialData.py:59-66 | Returns the pressure list as it was, in arrival order, and leaves it empty. |
| Samples.Replay | exg/scripts/PlotSerialData.py:59-75 | Replays appends and drains on one list. Each drain hands out exactly one list. With no drain, the list holds the initial contents followed by every batch, in order. |
| Samples.NothingLostOrRepeated | exg/scripts/PlotSerialData.py:59-75 | Over any interleaving of appends and drains, the concatenated drains followed by what is left equal the initial contents followed by everything appended. |
| Samples.SecondDrainEmpty | exg/scripts/PlotSerialData.py:59-75 | A drain straight after a drain returns the empty list. |
| Stats.Sum | exg/scripts/PlotSerialData.py:332-335 | Python's `sum` of a list. The sum of readings that are never negative is never negative. |
| Stats.SumBetween | exg/scripts/PlotSerialData.py:332-335 | When every value lies in [lo, hi], the sum lies between the count times lo and the count times hi. |
| Stats.Min | exg/scripts/PlotSerialData.py:265 | Python's `min` of a non-empty list is one of its elements; `Stats.MinIsSmallest` adds that none is smaller. |
| Stats.Max | exg/scripts/PlotSerialData.py:269 | Python's `max` of a non-empty list is one of its elements; `Stats.MaxIsLargest` adds that none is larger. |
| Stats.MinIsSmallest | exg/scripts/PlotSerialData.py:265 | `min` of a non-empty list is one of its elements and no element is smaller. |
| Stats.MaxIsLargest | exg/scripts/PlotSerialData.py:269 | `max` of a non-empty list is one of its elements and no element is larger. |
| Stats.MeanOf72Between | exg/scripts/PlotSerialData.py:332 | The floor of the mean of 72 values lies between their minimum and maximum. |
| History.Tick | exg/scripts/PlotSerialData.py:321-329 | The drained values, in arrival order, always end the new history. |
| History.TickAverage | exg/scripts/PlotSerialData.py:331-336 | An average is published if and only if the pre-tick length is a positive multiple of 72. |
| History.TickKeepsOrder | exg/scripts/PlotSerialData.py:321-329 | Pre-tick length over 5000: the history becomes exactly the drained values. Otherwise the old history stays as a prefix, followed by the drained values, so 5000 plus one value gives 5001. The drained values always end it, in order. |
| History.AverageOfLastBlock | exg/scripts/PlotSerialData.py:331-336 | Without a clear, the published average is the floor of the sum of the last 72 pre-tick values divided by 72, and lies between their minimum and maximum. |
| History.AverageAfterClear | exg/scripts/PlotSerialData.py:321-336 | When a cleared history's pre-tick length L is a multiple of 72 and at most L - 72 values were drained, the published average is 0. |
| Axis.Window | exg/scripts/PlotSerialData.py:253-265 | The values on display are the last min(len, 500) entries. A history of at most 500 entries is shown whole. |
| Axis.AxisBounds | exg/scripts/PlotSerialData.py:253-254 | The x range is 500 wide. It ends at the history's length, or at 500 while the history is shorter, and starts where the last min(len, 500) entries start. |
| Axis.BoundsBracketValues | exg/scripts/PlotSerialData.py:263-271 | The lower y bound is 100 below the smallest of the last min(len, 500) entries. The upper one is 100 above the largest entry of the whole history. Both are attained. An empty history gives [0, 100]. |
| Axis.YLowerAsWritten | exg/scripts/PlotSerialData.py:263-267 | The lower bound exactly as line 265 computes it: 100 below the smallest entry of the slice Python takes for `data[len-500:]`, and that minimum is attained. An empty history gives 0, as the `except` branch does. |
| Axis.AsWrittenAgreesOutsideGap | exg/scripts/PlotSerialData.py:253-267 | Python's slice `data[len-500:]` is the display window if and only if len <= 250 or len >= 500. For those lengths the bound as written equals the corrected one. |
| Axis.AsWrittenSkipsPrefix | exg/scripts/PlotSerialData.py:265 | For 250 < len < 500 the lower bound as written is taken over entries [2 len - 500, len) only, although the window is the whole history. |
| Axis.AsWrittenMissesMinimum | exg/scripts/PlotSerialData.py:265 | On `[0, 0]` followed by 249 values of 1000, the lower bound as written is 900, while the window's minimum gives -100. |
| Commands.AtoiShow | exg/scripts/PlotSerialData.py:361-369 | `atoi` reads back the number `str` writes for a maximum. |
| Commands.ClampValue | exg/scripts/PlotSerialData.py:361-369 | A parameter is accepted if and only if `atoi` accepts it. The text kept reads back as the value clamped to the maximum, and a value at or under the maximum is kept exactly as typed. |
| Commands.CommandOfNumbers | exg/scripts/PlotSerialData.py:353-373 | For parameters typed as plain numbers, the command is `FC` followed by three digits, each the parameter clamped to 7, 3 and 8 respectively. |
| Commands.Atoi | exg/scripts/PlotSerialData.py:361-369 | A non-empty run of decimal digits reads as its value. Blank text is rejected, as `string.atoi` raises on it. |
| Commands.Show | exg/scripts/PlotSerialData.py:363-369 | `str` of a natural number is a non-empty run of decimal digits. |
| Commands.Clamp | exg/scripts/PlotSerialData.py:361-369 | A parameter is accepted if and only if `atoi` accepts it. A value at or under the maximum is kept exactly as typed. |
| Commands.Command | exg/scripts/PlotSerialData.py:353-373 | A command exists if and only if all three parameters are accepted. It then starts with "FC" and has at least five characters. |
| Mailbox.CommandSlot.constructor | exg/scripts/PlotSerialData.py:36 | The slot starts empty. |
| Mailbox.WriteThread.constructor | exg/scripts/PlotSerialData.py:456-462 | The writer uses the shared device and the shared command slot. |
| Mailbox.WriteThread.RunOnce | exg/scripts/PlotSerialData.py:467-470 | With a command pending, one pass writes it to the device once and empties the slot. Otherwise it changes nothing. It never consumes input bytes. |
| Mailbox.Pass | exg/scripts/PlotSerialData.py:467-470 | After a writer pass the slot is empty. The commands written followed by the pending one are the same as before the pass, so nothing is lost or duplicated. |
| Mailbox.Post | exg/scripts/PlotSerialData.py:370-373 | The slot holds the new command. If the slot was empty, the new command is added at the end of the written-then-pending sequence. |
| Mailbox.Replay | exg/scripts/PlotSerialData.py:370-373 | Replays stores and writer passes on the slot and the device's command log, in order. A command once written stays in the log: the old log is a prefix of the new one. |
| Mailbox.EachCommandOnce | exg/scripts/PlotSerialData.py:370-373 | When every store waits for an empty slot, each stored command is either written exactly once, in store order, or is still pending. Nothing is lost or duplicated. |
| Plot.GraphFrame.constructor | exg/scripts/PlotSerialData.py:200-206 | Gain, Channel and Rate start as "0", "1" and "0". Both shown averages start at 0 and both histories start empty. |
| Plot.GraphFrame.OnRedrawTimer | exg/scripts/PlotSerialData.py:320-337 | Both histories become `History.Tick` of their old value and the drained list, and both sample lists are left empty. A shown average changes exactly when `History.TickAverage` publishes one. The returned bounds are `Axis.AxisBounds` of the new histories. The parameter texts are unchanged. |
| Plot.GraphFrame.TickTemperature | exg/scripts/PlotSerialData.py:321-333 | The temperature part of the tick: the history becomes `History.Tick` of its old value and the drained list, the temperature list is left empty, and the shown average changes exactly when `History.TickAverage` publishes one. The parameter texts are unchanged. |
| Plot.GraphFrame.TickPressure | exg/scripts/PlotSerialData.py:322-336 | The pressure part of the tick, as for temperature, on the pressure history, list and shown average. |
| Plot.GraphFrame.DrawPlot | exg/scripts/PlotSerialData.py:253-271 | The bounds for each channel are `Axis.AxisBounds` of its history: the x range and the upper y bound as the source computes them, and the corrected lower y bound over the values on display. Nothing changes. |
| Plot.GraphFrame.OnClickSetPara | exg/scripts/PlotSerialData.py:351-373 | The slot receives exactly `Commands.Command` of the three texts. The command is posted if and only if `atoi` accepts all three. Each text is written back clamped. The handler stops at the first text `atoi` rejects, leaving the later texts untouched. |

## Left out

- The wxPython widgets, layout, timers, status bar and save dialog, and all matplotlib, pylab and numpy drawing calls are left out. Only the integers `draw_plot` hands to `set_xbound` and `set_ybound` are kept; `Plot.GraphFrame.OnRedrawTimer` returns them.
- Plot.GraphFrame.DrawPlot: returns the corrected lower y bound, `Axis.AxisBounds`, rather than the one line 265 computes (see Findings). The two differ only when 250 < len < 500 (`Axis.AsWrittenAgreesOutsideGap`). The bound as written is `Axis.YLowerAsWritten`.
- Plot.GraphFrame.OnRedrawTimer: returns the bounds `Plot.GraphFrame.DrawPlot` computes, so its lower y bound is also the corrected one.
- `round(..., 0)` on the bounds is left out. In Python 2 it turns an integer into a float of the same value, and the model keeps the integer.
- The text fields that show averages hold the integer the source formats with `str`.
- The serial device is a sequence of bytes not yet read plus a log of commands written (`Serial.SerialPort`). Opening the port and the baud rate are left out.
- Acquisition.ReadThread.RunOnce: requires that the bytes the pass reads are all available. The source's reads block until they arrive, and a short read is not handled by the code.
- Threads, `sensor_data_lock` and the `while True` loops are left out. Each method is one atomic step, made under the lock where the source takes it. Interleavings are modelled only through the traces of `Samples.Replay` and `Mailbox.Replay`.
- Plot.GraphFrame.OnClickSetPara: requires the slot to be empty. This models the busy wait at lines 370-372 as over. The wait itself, which depends on the other thread, is left out. The texts are written back before the wait in the source too, so the order of effects is the same.
- Plot.GraphFrame.OnRedrawTimer: handles temperature fully before pressure, through TickTemperature and TickPressure. The source interleaves the two channels line by line. They touch disjoint state, so the final state is the same.
- A `ValueError` from `string.atoi` ends `OnClickSetPara` there. The model returns `false` at that point, keeping the write-backs already made. The exception's propagation to the GUI loop is left out.
- `print` diagnostics are left out. The unknown-type message at line 427 prints `buf[0]` rather than the type byte, and this has no effect on state.
- Commands.Atoi: covers ASCII whitespace and ASCII decimal digits only. Python 2's handling of non-ASCII digits, and its promotion of very long numbers to `long`, are not modelled; Dafny integers are unbounded anyway.

Three behaviours of the code worth noting:
- The clear test and the multiple-of-72 test both use the length measured before the append. A history of 5000 plus one value therefore has 5001 entries.
- The upper y bound is taken over the whole history, not over the 500-entry window.
- When the pre-tick length is over 5000 and a multiple of 72, the history is cleared before the block `[L - 72, L)` is summed. What is published is then the sum of whatever drained values fall in that range, divided by 72 (`History.AverageAfterClear`). The model keeps this as written.

## Findings

| source | as written | input that shows it | evidently intended | confidence | as-written member | corrected member |
|---|---|---|---|---|---|---|
| exg/scripts/PlotSerialData.py:265 | The lower y bound is `min(data[len - 500:]) - 100`. For len < 500 the negative start counts from the end, so for 250 < len < 500 the first 2·len - 500 displayed entries are skipped. | A history of `[0, 0]` followed by 249 values of 1000 (length 251). The bound comes out at 900, above the displayed value 0. | The minimum over the last min(len, 500) entries, the values on display (here the whole history), giving -100. | high; not executed | Axis.YLowerAsWritten, Axis.AsWrittenMissesMinimum | Axis.AxisBounds, Axis.BoundsBracketValues |
