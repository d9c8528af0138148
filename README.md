# Syringe pump driver and device controller

A Dafny model of two parts of the `syringe_pump` package.

- The vendor ASCII protocol driver (`syringe_pump/driver.py`). It covers:
  - the command frame each atomic operation writes;
  - how `query` parses the pump's reply line;
  - the status table of `convert_error_code`;
  - the pump-id field that `discover` reads;
  - the driver's own state: orientation, backlash, `cmd_position`, and the last command and reply.
- The device controller above it (`syringe_pump/device.py`). It covers:
  - the fields it keeps: commanded and read-back position, speed, valve, busy, error, error code and scan period;
  - the done-moving flag and the alarm and warning levels;
  - the `flow` speed gate;
  - the compound scripts `fill`, `empty` and `prime`.

The files are:

- `Text.dfy`: byte strings (`seq<char>`, one Latin-1 byte per char). It also holds Python's decimal rendering and parsing of ints and of floats with three decimals, `bytes.upper`, `find` and `split`.
- `Py.dfy`: Python numbers as `Int`, `Float` (in thousandths) or `NaN`; `str`, `int`, `float`, `abs`, `-` and `<=` on them; and the exceptions the core raises, as a `Result`.
  - Floats are restricted to whole thousandths. This is a restriction of the model, not a property of the source. `_set_position` and `move_abs` round the position with `round(x, 3)`, but `move_abs` writes its speed unrounded (driver.py:783), `set_cmd_position` stores its value unrounded (device.py:306), and `home` writes the backlash unrounded. Within thousandths `str` is exact, and it is proved injective through its inverse.
- `Codec.dfy`: the frames, the status table, reply decoding, and the pump id of an identification reply.
- `Driver.dfy`: the serial port and the `Driver` class.
  - The port is a class holding the frames written so far and the lines still to be read.
  - `readline` returns `b''` once the scripted lines run out, as a timed-out read does.
  - A driver without a port answers every query with "no device found".
- `Driver.dfy` method contracts: each method states exactly which frames went out (`Exchanged`) and which reply it returns (`Answer(k)` is the parse of the (k+1)-th line still to come).
- `Device.dfy`: the `Device` class.
  - Its methods update the fields as the source does.
  - The compound methods state the frames they send that change the pump, in order. `Actions` drops the position and busy polls, and `Extends` says a transcript grew by exactly those actions.

Behaviour kept as written:

- `initialize` with an orientation other than `Y` or `Z` sends the bare frame `/1R\r`. Its test `b'' != ''` is always true, so the error reply at driver.py:541 is never produced.
- A reply line of `b''` (a timed-out read) is not treated as "no device found". `query` raises IndexError on it.
- `home` with a pump id outside 1..4 raises UnboundLocalError before sending anything.
  - Otherwise it sends the composed frame.
  - It then sets `cmd_position` to 0.0.
  - Assigning `self.speed = 25.0` goes through the property setter, which sends a second, on-the-fly frame `/1V25.0,1F\r`.
- `move_rel` aborts and then reads `self.position`, which a `Driver` does not have. It therefore always raises AttributeError, and its relative-move frame is never sent. `Codec.MoveRelCommand` still gives the frame the code would build.
- `Device.get_busy` returns `bool(int(value))` of the reply value, not the busy flag of the status byte. Those two can disagree (`PumpDevice.BusyFlagIgnoresStatus`).
- `Device.run_once` relaxes the scan period whenever `busy` is not True, including when it is None.
- `Device.wait` loops while `busy` is True without polling. Only the background poller (`run_once`) can end that loop. The model therefore runs `RunOnce` polls in the loop. It ends at the first poll after which `busy` is not True; running out of answers only bounds it. A poll that raises ends the model's `Wait` with that exception, while in the source the exception ends the poller thread and `wait` goes on looping.
- `Device.abort` stops polling after 10 s of wall-clock time. The model uses a budget of busy polls instead and returns `abort`'s local flag. The source publishes `cmd_ABORT = 0` only when that flag is True (device.py:100-101).
- `flow` tests `self.valve is not 'o'`. For the one-letter strings the device stores, that is `!=`.

## Model

| member | source | states |
|---|---|---|
| Text.Upper | syringe_pump/driver.py:717 | `upper()` raises exactly the ASCII lower-case letters by 32 and keeps every other byte |
| Text.ParseRenderInt | syringe_pump/device.py:166 | `int()` reads back what `str()` writes for every int |
| Text.ParseRenderMilli | syringe_pump/device.py:291 | `float()` reads back what `str()` writes for every float with three decimals |
| Py.ParseStr | syringe_pump/driver.py:340-341 | the text `str()` prints for a number parses back to the same number, of the same kind (int, float or nan) |
| Py.StrInjective | syringe_pump/driver.py:391-392 | two numbers with the same `str()` text are equal |
| Py.PointMarksFloat | syringe_pump/driver.py:657-668 | `str()` prints a point exactly for floats, so `25.0` and `25` are different frames |
| Py.Sub | syringe_pump/device.py:348 | the difference of two numbers in thousandths; nan if either is nan; an int exactly when both are ints |
| Py.Abs | syringe_pump/device.py:348 | `abs()` is non-negative and has the magnitude of its argument; nan stays nan |
| Py.Trunc | syringe_pump/driver.py:728 | `int()` truncates toward zero and raises ValueError on nan |
| Codec.SetPositionCommand | syringe_pump/driver.py:340-341 | the frame is a `/1A…` command executed by `R` |
| Codec.SetPositionCommandInjective | syringe_pump/driver.py:340-341 | the frame determines the position |
| Codec.SpeedCommand | syringe_pump/driver.py:391-392 | the frame is a `/1V…` command ending in `F` on the fly and in `R` otherwise |
| Codec.SpeedCommandInjective | syringe_pump/driver.py:411-413 | the frame determines the speed |
| Codec.VolumeCode | syringe_pump/driver.py:490-496 | a code exists exactly for 50, 100, 250 and 500 µL, whether given as int or float |
| Codec.VolumeFrames | syringe_pump/driver.py:490-498 | the four sizes send `/1U93R\r`, `/1U94R\r`, `/1U90R\r` and `/1U95R\r` |
| Codec.VolumeCommand | syringe_pump/driver.py:498 | the volume frame is a command executed by `R` |
| Codec.InitializeCommand | syringe_pump/driver.py:531-539 | every orientation sends a command executed by `R` |
| Codec.UnknownOrientationSendsBareExecute | syringe_pump/driver.py:536-541 | an orientation other than Y and Z sends `/1R\r` |
| Codec.HomeCommand | syringe_pump/driver.py:652-668 | a home frame exists exactly for pump ids 1 to 4, and it is a command executed by `R` |
| Codec.HomeCommandInjective | syringe_pump/driver.py:625-668 | for a given pump the home frame determines the backlash it carries, as the Backlash column of home's docstring table promises |
| Codec.HomeFollowsOrientationTable | syringe_pump/driver.py:652-668 | odd pumps initialize with `Y7,0,0` and even pumps with `Z7,0,0`; the valve then turns to input (`I`) |
| Codec.HomePrefixOpens | syringe_pump/driver.py:652-668 | each pump's home text opens with its orientation's initialization (`Y` for pumps 1 and 3, `Z` for 2 and 4) followed by the valve letter `I` |
| Codec.ValveCommand | syringe_pump/driver.py:715-718 | the valve frame is a command executed by `R`, four bytes longer than the letter |
| Codec.BacklashCommand | syringe_pump/driver.py:728 | the backlash frame is a command executed by `R` |
| Codec.BacklashCommandInjective | syringe_pump/driver.py:728 | the frame determines the backlash steps |
| Codec.MoveAbsCommand | syringe_pump/driver.py:780-787 | the move frame is a `/1V…` command executed by `R` |
| Codec.MoveAbsCommandInjective | syringe_pump/driver.py:780-787 | the move frame determines both the speed and the position |
| Codec.MoveRelCommand | syringe_pump/driver.py:796-800 | the relative-move frame is a command executed by `R` |
| Codec.QueriesAreCommands | syringe_pump/driver.py:688-693 | the query, abort, reset and identification frames are `/1…\r` commands, and the busy, valve, abort and reset frames end in `R` |
| Codec.ConvertErrorCode | syringe_pump/driver.py:733-762 | the lookup never fails: busy and error are both present exactly for the ten tabled codes, and both None otherwise |
| Codec.BusyIsUpperCase | syringe_pump/driver.py:737-762 | busy is True exactly for `@ A B C O` and False exactly for `` ` a b c o ``; for a tabled byte, busy means `@` or upper case |
| Codec.TwinCodesShareError | syringe_pump/driver.py:738-756 | each tabled code has a twin that differs in bit 0x20, with the same error text and the opposite busy flag |
| Codec.DecodeReply | syringe_pump/driver.py:244-252 | no port gives "no device found"; a line raises IndexError exactly when the prefix is missing before the first suffix; otherwise busy and error come from the status table of a status byte of at most one byte |
| Codec.DecodeEncodedReply | syringe_pump/driver.py:244-249 | prefix + status + value + suffix decodes to that status and value, with busy and error from the table, when the frame holds no other prefix or suffix |
| Codec.EmptyLineRaises | syringe_pump/driver.py:244-247 | an empty reply line raises IndexError |
| Codec.ReceivedPumpId | syringe_pump/driver.py:84-91 | the id discover reads is a single decimal digit 0..9, and the only exception it can raise is ValueError |
| Codec.PumpIdIsSeventhByte | syringe_pump/driver.py:84-91 | the pump id is 0 for an empty reply, otherwise the digit at offset 6 of a line of at least 10 bytes, otherwise ValueError |
| PumpDriver.Port.Write | syringe_pump/driver.py:165 | the frame is appended to the frames sent |
| PumpDriver.Port.ReadLine | syringe_pump/driver.py:193 | returns the next line, or `b''` when none is left, and consumes it |
| PumpDriver.UnsupportedVolume | syringe_pump/driver.py:499-500 | the local reply has value `''`, error code `!`, no busy flag, and an error naming the volume |
| PumpDriver.Driver.constructor | syringe_pump/driver.py:32-38 | empty orientation, nan backlash, no cmd_position, nothing sent or read |
| PumpDriver.Driver.Write | syringe_pump/driver.py:137-168 | with a port, the frame is sent and recorded as the last command; without one, nothing changes |
| PumpDriver.Driver.Read | syringe_pump/driver.py:170-198 | with a port, one line is read and recorded as the last reply; without one, the result is empty |
| PumpDriver.Driver.Query | syringe_pump/driver.py:201-252 | exactly one frame is sent and one line read, and the result is that line's parse; without a port, nothing is sent and the result is "no device found" |
| PumpDriver.Driver.GetPosition | syringe_pump/driver.py:298-317 | sends `/1?18\r` and returns its reply |
| PumpDriver.Driver.SetPosition | syringe_pump/driver.py:319-343 | sends the position frame and returns its reply |
| PumpDriver.Driver.GetSpeed | syringe_pump/driver.py:346-367 | sends `/1?37\r` and returns its reply |
| PumpDriver.Driver.SetSpeedAtomic | syringe_pump/driver.py:369-393 | sends the `R` speed frame and returns its reply |
| PumpDriver.Driver.SetSpeedOnTheFly | syringe_pump/driver.py:395-414 | sends the `F` speed frame and returns its reply |
| PumpDriver.Driver.SetSpeed | syringe_pump/driver.py:436-462 | on the fly: exactly the `F` frame. Otherwise: the abort frame and then the `R` frame, returning the second reply; an exception on the abort sends nothing more |
| PumpDriver.Driver.AssignVolume | syringe_pump/driver.py:468-501 | a supported size sends its U frame; any other size sends nothing, changes nothing, and returns the local error reply |
| PumpDriver.Driver.Initialize | syringe_pump/driver.py:503-543 | sends the orientation's frame; the orientation is recorded when the query returns |
| PumpDriver.Driver.Abort | syringe_pump/driver.py:603-618 | sends `/1TR\r` and returns its reply |
| PumpDriver.Driver.Home | syringe_pump/driver.py:620-672 | a bad pump id raises UnboundLocalError with nothing sent. Otherwise the home frame goes out, then cmd_position becomes 0.0 and the on-the-fly speed frame for 25.0 follows; the home reply is returned unless a query raised |
| PumpDriver.Driver.SendHome | syringe_pump/driver.py:661-672 | the composed frame goes out; if its query raises, that is the result and cmd_position is untouched; otherwise cmd_position becomes 0.0, the on-the-fly speed frame for 25.0 follows, and the home reply is returned unless that second query raised |
| PumpDriver.Driver.Busy | syringe_pump/driver.py:674-690 | sends `/1?29R\r` and returns its reply |
| PumpDriver.Driver.GetValve | syringe_pump/driver.py:692-695 | sends `/1?20R\r` and returns its reply |
| PumpDriver.Driver.SetValve | syringe_pump/driver.py:697-720 | sends `/1` + the upper-cased letter + `R\r` and returns its reply |
| PumpDriver.Driver.SetBacklash | syringe_pump/driver.py:725-730 | nan raises ValueError with nothing sent; otherwise the frame of `int(value)` goes out, and `value` itself is recorded when the query returns |
| PumpDriver.Driver.Reset | syringe_pump/driver.py:764-768 | sends `/1!R\r` and returns its reply |
| PumpDriver.Driver.MoveAbs | syringe_pump/driver.py:772-788 | sends the one move frame and returns its reply |
| PumpDriver.Driver.MoveRel | syringe_pump/driver.py:791-800 | sends only the abort frame and always fails: with the abort's exception, or else AttributeError |
| PumpDriver.AnsweredLineExists | syringe_pump/driver.py:244-247 | a reply that parses came from a real line, so each successful query consumes one |
| PumpDevice.IsDoneMoving | syringe_pump/device.py:344-349 | done exactly when both positions are numbers less than dpos = 0.002 apart |
| PumpDevice.Alarm | syringe_pump/device.py:414-422 | non-empty exactly when the position is at or below 5.0, and then the below-limit message |
| PumpDevice.Warning | syringe_pump/device.py:424-432 | non-empty exactly when the position is at or below 10.0, and then the below-limit message |
| PumpDevice.AlarmImpliesWarning | syringe_pump/device.py:53-54 | an alarm is always accompanied by a warning |
| PumpDevice.BusyFlag | syringe_pump/device.py:162-168 | None for a missing value; otherwise ValueError exactly when `int()` fails, and else the value is non-zero |
| PumpDevice.BusyFlagOfNumeral | syringe_pump/device.py:165-166 | a value printed from an int n reads as busy exactly when n ≠ 0 |
| PumpDevice.BusyFlagIgnoresStatus | syringe_pump/device.py:162-166 | a reply idle by its status byte but with value "1" reads as busy |
| PumpDevice.PositionValue | syringe_pump/device.py:286-291 | nan for a missing value; otherwise ValueError exactly when the value is no decimal, and else that decimal |
| PumpDevice.PositionValueOfFloat | syringe_pump/device.py:291 | a position printed as a float reads back exactly |
| PumpDevice.PrimeShape | syringe_pump/device.py:473-484 | prime's actions are 2N + 4 frames: speed 68.0 and valve `I`, then N strokes to 0.0 and to 250.0, then the starting speed and valve `O` |
| PumpDevice.PrimeOnceIsFill | syringe_pump/device.py:477-483 | after its speed frame, prime with one stroke sends exactly what fill sends |
| PumpDevice.Device.constructor | syringe_pump/device.py:40-56 | starts at position 0.0, fast scan, with the speed, cmd_position 0.0 and valve `o` that init sets (device.py:78-80) |
| PumpDevice.Device.ProcessDriverReply | syringe_pump/device.py:382-412 | a reply's busy, error and error code are copied and its value returned; a missing reply changes nothing and returns None |
| PumpDevice.Device.GetBusy | syringe_pump/device.py:162-168 | sends one busy query, absorbs its status, and returns `BusyFlag` of its value |
| PumpDevice.Device.GetPosition | syringe_pump/device.py:282-292 | sends one position query, absorbs its status, and sets the position to `PositionValue` of the value |
| PumpDevice.Device.RunOnce | syringe_pump/device.py:133-144 | polls the position; the scan period becomes 10 s unless busy is True; returns done-moving, read-back, alarm and warning of the new position |
| PumpDevice.Device.SetCmdPosition | syringe_pump/device.py:303-308 | sends the position frame, then cmd_position is the target and the scan period fast; position is untouched |
| PumpDevice.Device.SetSpeed | syringe_pump/device.py:328-336 | sends the on-the-fly speed frame, absorbs its status, and records the speed |
| PumpDevice.Device.SetSpeedOnTheFly | syringe_pump/device.py:319-325 | sends the on-the-fly speed frame, absorbs its status, and records the speed |
| PumpDevice.Device.SetValve | syringe_pump/device.py:374-379 | sends the valve frame and records the letter |
| PumpDevice.Device.MoveAbs | syringe_pump/device.py:359-366 | sends abort and then the move at the given speed or the device's own; cmd_position and the fast scan are set before the move |
| PumpDevice.Device.Wait | syringe_pump/device.py:436-455 | sends only polls |
| PumpDevice.Device.Abort | syringe_pump/device.py:85-104 | sends the abort frame and after it only polls; an exception of the abort query is the result; otherwise the result is `RestFlag` of the busy readings of the next budget + 1 replies, and True without a port |
| PumpDevice.Device.AwaitRest | syringe_pump/device.py:94-99 | only polls are sent; the result is `RestFlag` of the readings of the next budget + 1 replies |
| PumpDevice.RestFlag | syringe_pump/device.py:94-99 | abort's flag fails only with the exception of one of its polls; it raises nothing of its own |
| PumpDevice.RestFlagFalse | syringe_pump/device.py:94-99 | abort reports a missed deadline exactly when every poll until the deadline read busy |
| PumpDevice.RestFlagTrue | syringe_pump/device.py:94-99 | abort reports rest exactly when some poll reads not busy and every poll before it read busy |
| PumpDevice.Device.Flow | syringe_pump/device.py:536-541 | on every path the frames sent are a beginning of: abort; valve `O` only if the valve was not `o`; abort and the move only at a speed of at most 5.0. Above 5.0 the move is never sent, whatever raises, and cmd_position is unchanged. Speed and position keep their values; a normal return has sent all of it and leaves the valve at `o` |
| PumpDevice.Device.TurnToOutput | syringe_pump/device.py:538-539 | on every path the valve frame `O` is the only action, sent exactly when the valve was not `o`; with the valve at `o` it returns normally; after a normal return the valve is `o` |
| PumpDevice.Device.MoveWithinLimit | syringe_pump/device.py:540-541 | above 5.0 nothing is sent, cmd_position is kept and it returns normally; at most 5.0 the frames sent on every path are a beginning of abort and the move, and a normal return has sent both and set cmd_position to the target |
| PumpDevice.Device.ActAbort | syringe_pump/device.py:537 | the abort frame is the only action; an exception of the abort query is passed on; speed, position, valve and cmd_position are untouched |
| PumpDevice.FlowGate | syringe_pump/device.py:540-541 | flow's actions contain the move exactly when the speed is at most 5.0 |
| PumpDevice.NoMoveAboveLimit | syringe_pump/device.py:540-541 | any beginning of flow's actions at a speed above 5.0 lacks the move |
| PumpDevice.Device.Fill | syringe_pump/device.py:511-534 | on every path the frames sent, polls aside, are a beginning of speed 100, valve `I`, to 0.0, to 250.0, the starting speed and valve `O`; a normal return has sent exactly these, restored the speed and left the valve at `o` |
| PumpDevice.Device.Empty | syringe_pump/device.py:487-509 | on every path the frames sent, polls aside, are a beginning of speed 100, valve `I`, to 0.0, the starting speed and valve `O`; a normal return has sent exactly these, restored the speed and left the valve at `o` |
| PumpDevice.Device.Prime | syringe_pump/device.py:457-484 | on every path the frames sent, polls aside, are a beginning of speed 68, valve `I`, N pairs of strokes to 0.0 and 250.0, the starting speed and valve `O`; a normal return has sent exactly these, restored the speed and left the valve at `o` |
| PumpDevice.Device.Prepare | syringe_pump/device.py:474-476 | on every path the frames sent are a beginning of the script speed and valve `I`; a normal return has sent both, waited, and set speed and valve |
| PumpDevice.Device.StrokeRepeatedly | syringe_pump/device.py:477-481 | on every path the frames sent are a beginning of N pairs of strokes to 0.0 and 250.0; a normal return has sent all of them, kept speed and valve, and after at least one stroke cmd_position is 250.0 |
| PumpDevice.Device.PollBusy | syringe_pump/device.py:484 | one busy poll and nothing else; it fails exactly when reading the busy reply fails; speed, valve and cmd_position are kept |
| PumpDevice.Device.Stroke | syringe_pump/device.py:478-479 | on every path the one position frame is the only action; a normal return has waited and cmd_position is the target |
| PumpDevice.Device.Finish | syringe_pump/device.py:482-483 | on every path the frames sent are a beginning of the starting speed and valve `O`; a normal return has sent both and set speed and valve |

## Left out

- Serial I/O is replaced by the scripted `Port`. That covers opening and closing ports, `flushInput`/`flushOutput`, baud rate and timeouts.
- `discover`'s loop over ports, `available_ports` and `comports` are foreign library calls. Only the pump-id extraction of `discover` is modelled, as `Codec.ReceivedPumpId`.
- The `RLock` and the `sleep` calls (in `query`, `set_valve`, `wait` and `abort`) are concurrency and wall-clock time.
- The polling thread (`start`, `run`, `stop`) is concurrency. Its body, `run_once`, is modelled.
- Publishing to the process-variable server (`casput`) is left out. `run_once` returns the four values it would publish as a `Snapshot`, and `abort` returns its flag. As written, `process_driver_reply` (device.py:382-412) and `get_speed` (device.py:316) call `casput` without importing it.
- Logging and `print` produce no state.
- `Driver.init`, `set_valve_orientation`, `waiting`, `close`, `get_speed` and `get_backlash` are plain pass-throughs or raise, or need a live port.
- `Driver.assign_pids` sends `/1s0ZA<pump_id>R\r` (driver.py:550-551), which writes the pump id to the pump's non-volatile memory. It is a one-time setup step outside the pump's operation, so it is not modelled.
- `Device.init`, `startup`, `monitor`, `command_monitor`, `cleanup`, `list_all_pvs` and `close` are left out because they belong to the process-variable server, and `init` imports a foreign driver module.
- `Device.home` and `Device.set_position` refer to undefined names, so they cannot run as written.
- `Device.get_speed` and `Device.get_valve` are plain pass-throughs of a query into a field.
- PumpDevice.Device.constructor: it merges `__init__` with the settings `init` makes before its first poll. The fields `busy`, `error` and `error_code`, which the source creates at the first reply, start as None.
- Floats are exact thousandths. Values with more decimals, Python's float repr above 10**12 and binary rounding are not modelled. For example, `abs(2.002 - 2.0) < 0.002` holds in binary floats but not in exact thousandths, so `PumpDevice.IsDoneMoving` can differ from the source at the `dpos` boundary.
- PumpDevice.BusyFlag: Python's `int()` also accepts surrounding whitespace and underscores. `ParseInt` does not, so such a value reads as ValueError here.
- PumpDevice.PositionValue: Python's `float()` also accepts whitespace, underscores, exponents, `nan`, `inf`, `infinity` and more than three decimals. `ParseMilli` does not, so such a value reads as ValueError here.
- PumpDevice.Device.Wait: its loop ends only through the background poller. It is modelled as `run_once` polls, so termination relies on the pump's answers running out; the `b''` line that ends them raises IndexError, and a poll that raises ends the model's `Wait` with that exception, whereas in the source it would end the poller thread and leave `wait` looping.
- PumpDevice.Device.Abort: the 10-second deadline is a budget of busy polls.
- PumpDevice.Device.Wait, PumpDevice.Device.Abort, PumpDevice.Device.Fill, PumpDevice.Device.Empty, PumpDevice.Device.Prime and PumpDevice.Device.Flow: their traces state which frames change the pump, and only the polls are left unspecified. For that reason the poll counts are not stated.
- The scripts and their phases state on every path that the frames sent, polls aside, are a beginning of their actions. Which step raised, and so how long that beginning is, is not stated; the lines below say what each leaves unstated after an exception.
- PumpDevice.Device.Fill: after an exception, speed, valve and cmd_position are not stated (the source leaves them as the failed step did); only the prefix of the trace is stated.
- PumpDevice.Device.Empty: after an exception, speed, valve and cmd_position are not stated (the source leaves them as the failed step did); only the prefix of the trace is stated.
- PumpDevice.Device.Prime: after an exception, speed, valve and cmd_position are not stated (the source leaves them as the failed step did); only the prefix of the trace is stated.
- PumpDevice.Device.Flow: after an exception, the valve is not stated, and the trace is stated as a prefix plus the absence of the move above 5.0.
- PumpDevice.Device.Prepare: after an exception, speed and valve are not stated; only the prefix of the trace is stated.
- PumpDevice.Device.StrokeRepeatedly: after an exception, speed, valve and cmd_position are not stated; only the prefix of the trace is stated.
- PumpDevice.Device.Stroke: after an exception, speed, valve and cmd_position are not stated.
- PumpDevice.Device.Finish: after an exception, speed and valve are not stated; only the prefix of the trace is stated.
- PumpDevice.Device.TurnToOutput: after an exception of the valve query, the valve is not stated.
- `syringe_pump/device_io.py`, `device_gui.py`, `device_client.py`, `scripts.py` and `mock_driver.py` are not part of this model. They are server, UI, network, camera and empty code.
