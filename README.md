# LaudaReglerGUI: a verified model of the thermostat control logic

LaudaReglerGUI is a desktop program that drives a LAUDA thermostat over RS-232 and reads a
pressure transducer on a second serial port. It uploads heating programs and controller
parameters, polls the readings in a background thread, plots them, and saves them to CSV. It
also stops the process and sets the thermostat to 30 °C when the pressure goes above 50 bar.
All of this logic sits in `lauda/views.py`, mixed into the Qt dialogs. This project models it
in Dafny and proves what it does.

The serial links are modelled by `Serial.Link`. A link holds the log of command strings whose
write was attempted on it (a command whose write raised is logged too) and a fixed script of reply lines: the k-th command ever written gets the k-th
entry. Once the script is used up, every read times out as an empty line, as pyserial does
with `timeout=1`. A `Fault` entry stands for any exception that the write, the read or the
decoding raises. `ser` and `ser_p` are `Link?`, with `null` for `None`.

| module | file | models |
|---|---|---|
| `Options` | options.dfy | the `Option` type |
| `Serial` | serial.dfy | the link, and the `Transcript` of a command sequence that stops at the first fault |
| `Decimal` | decimal.dfy | `str(n)` and the zero-padded `f"{n:0wd}"` for integers, with their decoding |
| `StatusFlags` | status.dfy | `updateStatusInfo`: one seven-digit status word to seven texts |
| `ProgramUpload` | program.dfy | `NewProgramEnterDialog.enter_button_clicked` and `saveLastentered` |
| `ControllerParams` | controller.dfy | `ReglerParameterDialog.enter_button_clicked` |
| `Poll` | poll.dfy | `SerialThread.run` (one round, and the `while self.running` loop) and `stop` |
| `Session` | session.dfy | `MainWindow`: start, stop, the pressure latch, its reset, `update_data`, the plot buffers |

The imperative parts of the source are methods with loops or classes, and each is proved
against a pure function:
- the upload's `programm_ok` list;
- the reader thread's loop (`Poll.Poller`);
- the main window's flags and five `deque(maxlen=2000)` buffers (`Session.MainWindow`).

The pure parts are functions with lemmas: the status texts, the SEG command format, the
segment filter and `out_ok`.

Where the code and its description disagree, the model follows the code:
- The upload counts as successful when `len(programm_ok) > 2`. `programm_ok` collects every
  reply to the SEG, TB and CY commands, whatever its text, so success does not depend on the
  replies saying `OK` (`ProgramUpload.AcceptedIffSomeSegment`).
- `stop_data_receiving` announces "Saving stopped!" but assigns `self.file = ''`, an attribute
  nothing reads. `filepath` is kept, so the next start saves to the same file again
  (`Session.StopKeepsSaving`).
- The `START` exchange in program mode flushes `ser_p` first. With no pressure transducer
  connected this raises `AttributeError` before `START` is written (`Session.StartSends`).
- A reply to `OUT_30` other than `OK` is ignored: there is no message and no error, and the
  session stays latched and stopped (lauda/views.py:572-577, `Session.TripRestartsIffOk`).
- One bare `try` wraps all ten queries of a poll round, so the first fault ends the round's
  queries instead of marking only that reading invalid (lauda/views.py:1353-1376,
  `Poll.FetchSpec`, `Poll.TryBlock`).
- Because of that, the variables keep the previous round's values: a round whose `IN_1` query
  raises emits the previous round's Ti, T1, Ts and p again as a new sample
  (`Poll.StaleRoundReemits`).

## Model

| member | source | states |
|---|---|---|
| Serial.Link.Query | lauda/views.py:1354-1355 | one `write` followed by one `readline`: the command is appended to the log of attempted writes, also when the exchange raises, and the reply is the one at the command's position |
| Serial.Exchange | lauda/views.py:988-1013 | one command-and-reply step of a multi-command exchange: either extends the clean transcript by the command and the reply text, or ends the transcript at this command when the reply raises |
| Serial.Transcript | lauda/views.py:1181-1206 | the definition of a multi-command exchange: the commands are written in turn with one reply read after each; without a fault every command is written and the reply texts collected, otherwise the commands up to and including the first faulting one are written |
| Serial.SilentWindow | lauda/views.py:308-310 | once a device has answered its whole script every later read times out (`timeout=1`) as a clean empty line, never a fault |
| Decimal.ValueOfDec | lauda/views.py:1232-1234 | `str(n)` of a non-negative integer decodes back to `n` |
| Decimal.PadRoundTrip | lauda/views.py:1182 | a number below 10^w padded with `:0wd` has exactly `w` digits and decodes back |
| Decimal.DecInjective | lauda/views.py:1233 | distinct numbers have distinct numerals |
| StatusFlags.FlagText | lauda/views.py:624-630 | the definition of the on/off texts of positions 0-2 and 4-6 |
| StatusFlags.SourceText | lauda/views.py:627-638 | the definition of the control-source text: named for 0, 1 and 2, the digit itself otherwise |
| StatusFlags.Entry | lauda/views.py:622-638 | the definition of the text for one position and digit |
| StatusFlags.DecodeStatus | lauda/views.py:622-638 | the seven texts exist exactly when the word has at least seven characters whose first seven are digits (otherwise `int()`/indexing raises); there are always seven of them |
| StatusFlags.DecodeIgnoresTail | lauda/views.py:622-629 | characters after the seventh never matter |
| StatusFlags.SourceTextInjective | lauda/views.py:632-637 | the control-source texts of different digits differ |
| StatusFlags.DecodeDeterminesWord | lauda/views.py:622-638 | two words show the same texts exactly when they agree on which of positions 0-2, 4-6 are zero and on digit 3 |
| ProgramUpload.Kept | lauda/views.py:1176 | `valid_segments`: the segments whose temperature is not zero, in input order, never more than the input |
| ProgramUpload.KeptAppend | lauda/views.py:1176 | the non-zero-temperature filter distributes over concatenation, so it keeps input order |
| ProgramUpload.KeptMembers | lauda/views.py:1176 | every kept segment is an input segment with a non-zero temperature |
| ProgramUpload.KeptEmpty | lauda/views.py:1176 | nothing is kept exactly when every temperature is zero |
| ProgramUpload.SegCommand | lauda/views.py:1182 | the definition of `SEG_({i:02d})_{temperature:03d}.{hours:02d}:{minutes:02d}\r\n` |
| ProgramUpload.StartCommand | lauda/views.py:1160 | the definition of `OUT_{Ts:.2f}\r\n` for the integer start temperature |
| ProgramUpload.ToleranceCommand | lauda/views.py:1194 | the definition of `OUT_TB{tolerance_band}\r\n`, with `str()` of the float as a parameter |
| ProgramUpload.CyclesCommand | lauda/views.py:1202 | the definition of `OUT_CY{cycles}\r\n` |
| ProgramUpload.SegCommandRoundTrip | lauda/views.py:1182 | each `SEG_(ii)_ttt.hh:mm\r\n` command is 20 characters and decodes to its index, temperature, hours and minutes |
| ProgramUpload.SegCommandInjective | lauda/views.py:1182 | two SEG commands are equal only for the same index and segment |
| ProgramUpload.SegCommands | lauda/views.py:1181-1182 | one SEG command per kept segment |
| ProgramUpload.Setters | lauda/views.py:1189-1206 | one setter for each of the tolerance band and the cycle count that is not zero, TB before CY |
| ProgramUpload.UploadCommands | lauda/views.py:1159-1206 | the start setter, one SEG command per kept segment, then the setters |
| ProgramUpload.UploadSegmentsWellFormed | lauda/views.py:1176-1182 | within the dialog's ranges, upload command 1+j is the 20-character SEG command of the j-th non-zero segment, indexed from 0 over the kept ones |
| ProgramUpload.SegmentText | lauda/views.py:1234 | the definition of `Temp: {t}, Hours: {h}, minutes: {m}` |
| ProgramUpload.SegmentKey | lauda/views.py:1233 | the definition of `Segment {i}` |
| ProgramUpload.IsLastEntered | lauda/views.py:1218-1234 | the definition of the saved record: `Last Updated`, `Start Temperature`, then `Segment 1..n` for the kept segments in order |
| ProgramUpload.RecordKeysDistinct | lauda/views.py:1218-1234 | the saved record's keys `Last Updated`, `Start Temperature`, `Segment 1..n` are pairwise distinct |
| ProgramUpload.SaveLastEntered | lauda/views.py:1216-1234 | the record lists the stamp, the start temperature, then `Segment 1..n` with the text of each kept segment in order, numbered without gaps |
| ProgramUpload.SendEach | lauda/views.py:1181-1187 | the SEG commands are written in turn with one reply read after each, the loop stopping at the first reply that raises |
| ProgramUpload.SendHead | lauda/views.py:1159-1187 | the start setter and then the SEG commands, each followed by one read, up to the first reply that raises |
| ProgramUpload.SendSetters | lauda/views.py:1189-1206 | the TB and CY exchanges, under the same rule |
| ProgramUpload.Transmit | lauda/views.py:1159-1206 | the whole upload is one transcript over `UploadCommands` |
| ProgramUpload.EnterProgram | lauda/views.py:1151-1214 | nothing without `ser`; otherwise the commands up to the first faulting reply are written; a complete upload is accepted exactly when more than two replies were collected, and then the record is saved |
| ProgramUpload.AcceptedIffSomeSegment | lauda/views.py:1189-1214 | within the dialog's ranges both setters are always sent, so a complete upload is accepted exactly when some segment temperature is not zero |
| ProgramUpload.SilentDeviceAccepted | lauda/views.py:1176-1214 | an upload to a thermostat that no longer answers runs to the end, and it is accepted when some segment temperature is not zero |
| ControllerParams.SourceCommands | lauda/views.py:999-1005 | exactly one of `OUT_RT1`/`OUT_RTi` for the two drop-down texts, none for any other |
| ControllerParams.ControllerCommands | lauda/views.py:988-1013 | `OUT_`, `OUT_L`, `OUT_H`, the source command, `OUT_XP`, `OUT_TN`, `OUT_TV` |
| ControllerParams.OutAll | lauda/views.py:1015 | the eight reply slots, with the unsent source slot empty |
| ControllerParams.OkReplies | lauda/views.py:1016 | `out_ok` holds only `OK` replies and is no longer than the slots |
| ControllerParams.OkRepliesNonEmpty | lauda/views.py:1016-1018 | `out_ok` is non-empty exactly when some slot reads `OK` |
| ControllerParams.Entered | lauda/views.py:1015-1022 | the definition of the verdict: `out_ok` over `out_all` is not empty |
| ControllerParams.EnteredIffSomeOk | lauda/views.py:1015-1022 | the values count as entered exactly when some real reply is `OK`; the empty filler slot never counts |
| ControllerParams.SilentDeviceNotEntered | lauda/views.py:988-1022 | against a thermostat that no longer answers, every command is written, each read times out, and the values are reported as not entered |
| ControllerParams.SendSettings | lauda/views.py:988-1013 | the commands are written in order with one reply read after each, up to the first reply that raises |
| ControllerParams.EnterController | lauda/views.py:975-1024 | nothing is written without an open `ser`; a complete run's verdict is `Entered` over the replies received |
| Poll.StepCommand | lauda/views.py:1354-1374 | the definition of the query of each of the ten steps |
| Poll.Fetch | lauda/views.py:1353-1376 | the definition of the try block, one step at a time from step `k`: it ends at the first step whose reply raises or does not convert |
| Poll.FetchSpec | lauda/views.py:1353-1376 | the try block assigns every step before the first one that raises; the variables from that step on keep their earlier values |
| Poll.FirstRaiseSpec | lauda/views.py:1353-1376 | the steps before `FirstRaise` do not raise, and the step at it does |
| Poll.FetchIsOverlay | lauda/views.py:1353-1376 | the step-by-step try block equals the declarative one: it stops at the first raise and assigns the steps before it |
| Poll.QueryOrder | lauda/views.py:1354-1374 | a round queries IN_1, IN_2, IN_3, P (pressure link), IN_4, IN_8, IN_9, IN_A, IN_B, IN_C; the thermostat sees the nine IN_ queries in that order |
| Poll.RoundReplies | lauda/views.py:1354-1374 | the reply each step gets: thermostat steps answered in turn on `ser`; the pressure step is answered on `ser_p`, or raises when `ser_p` is `None` |
| Poll.Reparse | lauda/views.py:1378-1419 | the definition of one `try: x = float(x) except ValueError: pass`: a text that parses becomes a float, anything else stays |
| Poll.ParseStep | lauda/views.py:1378-1419 | the parse step as written succeeds exactly when every variable has been assigned |
| Poll.ParseStepFixed | lauda/views.py:1378-1419 | each assigned text that parses becomes its float; any other value and the status word stay as they are; nothing becomes assigned or unassigned |
| Poll.ParseStepAgrees | lauda/views.py:1378-1419 | once every variable is assigned the corrected and the written parse step agree |
| Poll.SampleOf | lauda/views.py:1425-1427 | a sample is emitted exactly when Ti, T1, Ts and p are floats (and the rest have their declared types), carrying those values |
| Poll.RoundSpec | lauda/views.py:1352-1427 | the definition of one round: the try block, the corrected parse step, then the emission test |
| Poll.UnparseablePressureSuppresses | lauda/views.py:1360-1395 | a pressure reply that does not parse suppresses the sample without raising |
| Poll.CleanRoundEmits | lauda/views.py:1352-1427 | a round whose ten replies all arrive and parse assigns everything and emits the parsed readings |
| Poll.RoundKeepsBound | lauda/views.py:1352-1419 | assigned variables stay assigned from round to round |
| Poll.StaleRoundReemits | lauda/views.py:1353-1427 | a round whose first query raises leaves every variable as the round before left it, and emits the previous readings again |
| Poll.FaultyPressureKeepsUnbound | lauda/views.py:1360-1395 | a round whose pressure step raises while `p` is unassigned leaves it unassigned and emits nothing |
| Poll.FirstRoundWithoutPressureLinkCrashes | lauda/views.py:1360-1395 | as written, a first round without a pressure link reaches `float(p)` with `p` unassigned |
| Poll.FirstRoundWithoutPressureLinkFixed | lauda/views.py:1360-1395 | with the corrected parse step that round emits nothing and leaves `p` unassigned |
| Poll.Step | lauda/views.py:1354-1355 | one query line of the try block: the query is written, and then either the reply is assigned (converted from step 5 on) or this is the first raising step |
| Poll.TextSteps | lauda/views.py:1354-1364 | steps 0-4 leave the declarative overlay; without a pressure link they stop at step 3 having written IN_1..IN_3 only |
| Poll.ConvertedSteps | lauda/views.py:1365-1374 | steps 5-9 leave the overlay and stop at the first raising step |
| Poll.TryBlock | lauda/views.py:1353-1376 | the try block stops at `FirstRaise`, leaves the overlay, and writes exactly the queries up to the raising step on each link |
| Poll.PollRound | lauda/views.py:1352-1427 | one round's variables and sample are `RoundSpec` of the replies, with the queries written accordingly |
| Poll.RoundAt | lauda/views.py:1352-1427 | the definition of round `k + 1` of one `run()`: the round from the variables and link positions the first `k` rounds left |
| Poll.Polls | lauda/views.py:1352-1427 | `n` rounds emit at most `n` samples and write at least one thermostat query each; nothing goes to an absent pressure link |
| Poll.PollsGrow | lauda/views.py:1352-1427 | one more round only appends to the samples and to both query logs |
| Poll.PollsPrefix | lauda/views.py:1352-1427 | stopping the loop later only adds: the samples and the queries of `n` rounds are prefixes of those of any `m >= n` rounds |
| Poll.NoPressureLinkNeverEmits | lauda/views.py:1352-1427 | without a pressure link no round ever emits a sample |
| Poll.ReachedNext | lauda/views.py:1352-1427 | the loop invariant survives one more round |
| Poll.NextRound | lauda/views.py:1352-1427 | one iteration of the loop carries the state of `n` rounds (variables, samples, both links' logs, as `Polls` gives them) to that of `n + 1` |
| Poll.Poller.constructor | lauda/views.py:1337-1342 | a new thread is not running |
| Poll.Poller.Stop | lauda/views.py:1432-1433 | `stop()` only clears the loop flag |
| Poll.Poller.Run | lauda/views.py:1344-1427 | nothing is polled without `ser`; otherwise `rounds` rounds run, each from the variables the one before left, and the samples and both links' logs are those of `Polls` |
| Session.StartSpec | lauda/views.py:441-490 | the definition of `start_data_receiving` as a transition of the flags |
| Session.StopSpec | lauda/views.py:516-544 | the definition of `stop_data_receiving` as a transition |
| Session.RestoreSpec | lauda/views.py:572-577 | the definition of the `OUT_30` exchange and the restart in no-program mode on `OK` |
| Session.CheckSpec | lauda/views.py:568-577 | the definition of `checkHighP`: on a first reading above 50 bar, set the latch, stop, then `RestoreSpec` |
| Session.ResetSpec | lauda/views.py:562-564 | the definition of `reset_pressure_exceeded` |
| Session.StartSends | lauda/views.py:454-463 | start sends `START` exactly in program mode with both links set; it raises exactly in program mode when `ser_p` is `None` or the reply raises; it never stops the thread |
| Session.StartLaunchesOnce | lauda/views.py:441-490 | an already receiving window stays receiving and launches no second thread; a stopped one with a link launches exactly one unless it raised; only `running`, `receiving` and the launch count change |
| Session.StopClears | lauda/views.py:516-544 | a stop that does not raise clears `receiving`; it keeps `filepath`, the latch and the mode, stops the thread exactly when it was receiving, and sends `STOP` exactly in program mode with `ser` set |
| Session.StopKeepsSaving | lauda/views.py:520-522 | stopping while saving assigns `file` and leaves `filepath` unchanged |
| Session.CheckActsIff | lauda/views.py:568-569 | `checkHighP` changes nothing and sends nothing exactly when the reading is at most 50 bar or the latch is already set; a tripping reading always leaves the latch set, whatever the stop and `OUT_30` exchanges do |
| Session.OnlyResetClearsLatch | lauda/views.py:562-577 | start, stop and `checkHighP` never clear the latch or `filepath`; the reset clears both |
| Session.TripRestartsIffOk | lauda/views.py:568-577 | after a clean stop a tripping reading sets the latch and sends `OUT_30` once; the session is receiving again exactly when the reply is `OK`, then in no-program mode and without raising |
| Session.Apply | lauda/views.py:441-603 | the definition of one event: a start, stop or reset click, a radio button checked, a path chosen in the save dialog, or a reading handled by `update_data` |
| Session.RunWith | lauda/views.py:441-603 | the definition of a sequence of events handled by one step, each on the link position the ones before left, ending at the first one that raises |
| Session.Run | lauda/views.py:441-603 | the definition of a sequence of events handled by the window's handlers (`Apply`) |
| Session.RunningOnlyWhileReceiving | lauda/views.py:441-577 | every event (clicks, radio buttons, save dialog, readings), each handled atomically, keeps `running` set only while `receiving` is |
| Session.CheckResetCommand | lauda/views.py:568-577 | `checkHighP` sends `OUT_30` at most once, and only when it sets the latch |
| Session.ApplyResetCommand | lauda/views.py:562-603 | per event, the `OUT_30` commands sent plus the latch being clear afterwards never exceed the latch being clear before plus one for a reset |
| Session.RunWithResetCommand | lauda/views.py:562-603 | a step that never sends `OUT_30` beyond the latch potential (a clear latch counts one, a reset adds one) keeps a whole run within one `OUT_30` per reset, plus one for a clear latch |
| Session.ApplyKeepsLatch | lauda/views.py:441-603 | no event but the reset button clears a set latch |
| Session.RunWithKeepsLatch | lauda/views.py:441-603 | a step that keeps a set latch on every non-reset event keeps it over any run without resets |
| Session.LatchedUntilReset | lauda/views.py:441-603 | once the latch is set it stays set over any sequence of clicks, choices and readings that holds no reset |
| Session.ResetCommandOncePerReset | lauda/views.py:562-603 | over any sequence of clicks, radio-button and save-dialog choices and readings, `OUT_30` is sent at most once per reset, plus once if the latch started clear |
| Session.Latest | lauda/views.py:395-399 | the definition of the newest 2000 values of a history |
| Session.Pushed | lauda/views.py:395-399 | an append grows the buffer by one up to 2000 and puts the new value last |
| Session.PushedKeepsOrder | lauda/views.py:581-586 | before the new value come the old ones in order, minus exactly the oldest when the buffer was full |
| Session.PushedIsLatest | lauda/views.py:395-399 | appending keeps a buffer equal to the newest 2000 values of everything appended |
| Session.PushAll | lauda/views.py:581-586 | the definition of appending values one at a time to a buffer; it never exceeds 2000 |
| Session.PushAllIsLatest | lauda/views.py:581-586 | a buffer filled from empty holds the newest 2000 values in arrival order |
| Session.MainWindow.constructor | lauda/views.py:381-412 | the session starts not receiving, not running, unlatched, with no file, in program mode, with empty buffers |
| Session.MainWindow.Start | lauda/views.py:441-490 | the new flags, the commands written and the raise are those of `StartSpec`; the buffers do not change |
| Session.MainWindow.Stop | lauda/views.py:516-544 | the same for `StopSpec`; the thread's loop flag is cleared when the stop calls `serial_thread.stop()` and is left alone otherwise |
| Session.MainWindow.CheckHighP | lauda/views.py:568-577 | the same for `CheckSpec` |
| Session.MainWindow.Restore | lauda/views.py:572-577 | the `OUT_30` write and what follows it, as `RestoreSpec` |
| Session.MainWindow.ResetPressureExceeded | lauda/views.py:562-564 | the latch and `filepath` are cleared and nothing else changes |
| Session.MainWindow.ShowSaveFile | lauda/views.py:751-761 | `filepath` becomes the chosen path and nothing else changes |
| Session.MainWindow.ChooseMode | lauda/views.py:835-841 | checking one of the two exclusive radio buttons sets the mode and nothing else changes |
| Session.MainWindow.UpdatePlot | lauda/views.py:605-612 | the plotted lists are the buffers, all of one length of at most 2000 |
| Session.MainWindow.AppendReadings | lauda/views.py:581-586 | each of the five buffers gets its value; the flags do not change |
| Session.MainWindow.UpdateData | lauda/views.py:579-603 | nothing happens unless receiving; otherwise the buffers are appended, the latch is checked, the plot gets the buffers unless the check raised, the status texts are shown unless it or the decode raised, and the row is saved only when neither raised and a file is chosen |

## Left out

- Qt widgets, the text of message boxes, button texts, styles and enabling, and the drawing of the plot: these are presentation only. The event loop that a message box runs is not presentation only; the next line but one covers it. The model stops at the lists handed to the plot and the texts for the status window.
- The connect and disconnect dialog (lauda/views.py:278-363) and the DTR/RTS/CTS check: links are given. A link that is set is open, since `serial.Serial` opens the port on construction and disconnect resets the global to `None`.
- `flushInput`: it is modelled only as raising on `None`. Discarding stale input does not change the scripted replies.
- `time.sleep`, `time.time()` and `QDateTime` texts: the clock reading of `update_data` is the parameter `now`; `start_time` and the start/stop time fields are display only.
- CSV writing (`saveCSV`, the CSV file of `saveLastentered`): the model records which row goes to which path, without the timestamp formatting or the file I/O.
- Python's `float()` parsing and the `%.2f`/`str(float)` rendering: these are the parameters `parse`, `show` and `fixed2`.
- `StatusFlags.DecodeStatus`: `int()` of a character is modelled for the ASCII digits only. Python also accepts other Unicode decimal digits.
- Poll.Poller.Run: the `stop()` that the main window calls from another thread is modelled by the parameter `rounds`, the round during which it takes effect (at least one). Concurrent access to `ser`/`ser_p`, `dataReceived` delivery, and the race where `stop()` runs before `run()` sets `running` are not modelled.
- Session.MainWindow.Start: `serial_thread.start()` is counted in `launches`. The thread's own run is `Poll.Poller.Run`, which is not called from the window because it runs concurrently.
- Session.MainWindow.Start: after a pressure trip, `stop_data_receiving` only clears the thread's loop flag and the restart then calls `serial_thread.start()`. `QThread.start()` does nothing while the thread is still inside `run()`, so the restarted session can be receiving with no thread polling. The model counts that call as a launch and does not capture this.
- Session.Run: every handler is taken as atomic. In the program, each `display_message` runs `msg_box.exec()` (lauda/views.py:877-882), a nested event loop that delivers queued `dataReceived` signals (lauda/views.py:402, 1427). So `update_data`, and with it `checkHighP`, can run inside `start_data_receiving` (lauda/views.py:479, 486), `stop_data_receiving` (lauda/views.py:522, 532) and `checkHighP` (lauda/views.py:577). Those interleavings are not modelled. For example, a trip during the "Programm started!" box stops the session, and then lauda/views.py:490 sets `running` with `receiving` false. `Session.RunningOnlyWhileReceiving` therefore holds only for atomic handlers. The latch arguments (`Session.ResetCommandOncePerReset`, `Session.LatchedUntilReset`) need only that no reset runs inside a handler, and the modal box blocks the reset click while it is open.
- Session.Run: which widgets are enabled at which time is not modelled. Events of every kind are allowed in any order, so the event sequences include every one the window lets a user make, and some it does not.
- An exception that escapes a handler ends that handler where it was raised. The flags keep what was assigned before it. `Session.Run` also stops at the first such event, as PyQt ends the application on an unhandled exception in a slot.
- Help, status, splash and checklist windows, `resource_path`, and all of lauda/main.py: these are presentation and bootstrap.
- Only the corrected parse step (`Poll.ParseStepFixed`) is used by the loop. The parse step as written is kept beside it for the finding below.

## Findings

| source | as written | input that shows it | evidently intended | confidence | as-written member | corrected member |
|---|---|---|---|---|---|---|
| lauda/views.py:1378-1395 | the parse step calls `float(Ti)` … `float(Tv)` on every variable. A variable that no round has assigned yet raises `UnboundLocalError`, which `except ValueError` does not catch, so `run()` ends | the first round with the pressure transducer not connected (`ser_p` is `None`): the write to it raises inside the try, so `p` and the later variables stay unassigned | a variable not assigned yet is left alone, the round emits nothing, and polling goes on | not executed; high | Poll.FirstRoundWithoutPressureLinkCrashes | Poll.FirstRoundWithoutPressureLinkFixed |
