# Raspberry Pi 3 emulation dashboard — verified model

The system is a web dashboard for a Raspberry Pi 3 board emulated in Renode. It has
four pieces of sequential logic, and this project models each of them in Dafny and
proves what each one promises.

- **The emulated BCM2835 mailbox** (`utils/mailbox.py`) is a Renode peripheral.
  - It has two registers, `read_status` and `read_value`, driven by double-word reads and writes at fixed offsets.
  - A write on channel 8 makes it walk a property buffer in bus memory, in the layout of the Raspberry Pi firmware's property interface.
  - The walk answers every request tag whose code is still 0 and fills in the temperature for the "get temperature" tag `0x00030006`.
  - Modules `PropertyBuffer` (`mailbox_walk.dfy`) and `Mailbox` (`mailbox.dfy`).
- **The browser terminal's login and line editor** (`static/terminal.js`).
  - A fixed login and password (`raspberry`) guard a line editor that sends commands to the emulator monitor.
  - Module `Terminal` (`terminal.dfy`).
- **The server's central state** (`app.py`).
  - A loaded snapshot is merged into the `state` dictionary, with nested dictionaries merged one level deep.
  - The LED and the fan are switched from the temperature and two thresholds.
  - The fan status text is derived from the fan speed.
  - The `set_threshold` endpoint updates the thresholds.
  - Module `Server` (`server.dfy`).
- **The dashboard's gauges** (`static/dashboard.js`).
  - The `state_update` handler maps each field of the server state onto a gauge: a thermometer, a humidity dial, a pressure dial, a fan and an LED.
  - Module `Dashboard` (`dashboard.dfy`).

`wrappers.dfy` holds the `Option` type.

How each piece is modelled:

- **Classes for state changed in place, functions for the rules.**
  - Code that changes state in place is a class whose methods change its fields: `BCM2835Mailbox` and `SystemBus`, `Session`, `App`, and the dashboard's `View`.
  - Each method is proved equal to a pure function of the old state (`Walk`/`Process`, `KeyStep`, `ConnectStep`, `OutputStep`, `Merge`, `Automate`, `UpdateThresholds`, the gauge maps).
  - The properties are proved as lemmas about those functions.
- **The property-buffer walk is a `while true` loop, as in the source.** It writes into the bus in place, and its invariant ties it to the fuel-bounded function `Walk`.
- **The bus is a map from byte address to 32-bit word.** An unmapped address reads as 0. Every access of the walk is at the buffer address plus a multiple of four, so no two accessed words overlap.
- **A Python exception is a result flag.** A handler that raises is modelled as a result with `raised` set, or as `None`. The changes made before the exception stay, as in Python.
- **Python's `float()` on a string is a parameter.** It is the function `floatOf`, which returns None where `float()` would raise.
- **Telnet commands are returned, not sent.** The commands sent to the emulator are returned as a list of strings.
- **The dashboard handler takes its fields already parsed.** Each field is an `Option`, None where JavaScript's `parseFloat`/`parseInt` give NaN or the field is null or undefined.

## Model

| member | source | states |
|---|---|---|
| PropertyBuffer.PaddedSize | utils/mailbox.py:54 | the value size rounded up to whole words: a multiple of 4, at least the size and less than size + 4 |
| PropertyBuffer.ResponseCode | utils/mailbox.py:57 | `0x80000000` OR-ed with `value_size`: the top bit is set and the low 31 bits are the size's |
| PropertyBuffer.MilliDegrees | utils/mailbox.py:59 | `int(temperature * 1000)`: the whole number of milli-degrees, truncated |
| PropertyBuffer.NextTag | utils/mailbox.py:48-54 | the next tag starts 12 bytes plus the padded value after the current one, so tag offsets stay word-aligned |
| PropertyBuffer.AnswerTag | utils/mailbox.py:45-59 | one turn of the loop: a tag whose code is non-zero is skipped; otherwise its code becomes the response code, and for tag 0x00030006 the word at value+4 becomes the temperature; no other word changes |
| PropertyBuffer.Walk | utils/mailbox.py:44-59 | the definition of the loop: answer the tag at the position and go on to the next, until a zero tag, within a bound on the number of tags |
| PropertyBuffer.Process | utils/mailbox.py:41-59 | the definition of `_process_property_buffer`: stamp 0x80000000 at +4, then walk from +8 |
| PropertyBuffer.AnswerTagWritesOnlyAnswers | utils/mailbox.py:55-59 | one tag's answer keeps the position word-aligned and writes only answer words, at word-aligned addresses from its code word on |
| PropertyBuffer.WalkWritesOnlyAnswers | utils/mailbox.py:44-59 | the whole walk writes only response codes or the temperature, at word-aligned addresses at or after the first code word it reaches |
| PropertyBuffer.ProcessWritesOnlyAnswers | utils/mailbox.py:41-59 | processing a buffer sets +4 to 0x80000000, writes nothing before it, and writes only answers after it |
| PropertyBuffer.WalkIdempotent | utils/mailbox.py:44-59 | on a well-formed tag list the walk reaches the zero tag, and walking its result again changes nothing |
| PropertyBuffer.ProcessIdempotent | utils/mailbox.py:41-59 | processing the same well-formed buffer twice leaves it as processing it once |
| PropertyBuffer.TemperatureRequestAnswered | utils/mailbox.py:41-59 | a buffer holding one temperature request gets code 0x80000008 on the tag and the temperature in its value's second word |
| Mailbox.Channel | utils/mailbox.py:32 | `value & 0xF` is below 16 |
| Mailbox.BufferAddress | utils/mailbox.py:33 | `value >> 4` fits in 28 bits |
| Mailbox.MailboxValueSplits | utils/mailbox.py:32-33 | a written value is its buffer address times 16 plus its channel, and that split is unique |
| Mailbox.SystemBus.Read32 | utils/mailbox.py:45 | a bus read returns the stored word, or 0 where nothing is stored |
| Mailbox.SystemBus.Write32 | utils/mailbox.py:42 | a bus write changes that one word and no other |
| Mailbox.BCM2835Mailbox.constructor | utils/mailbox.py:5-9 | temperature 25.0, status empty (0x40000000), read value 0 |
| Mailbox.BCM2835Mailbox.Reset | utils/mailbox.py:11-13 | restores the temperature and the empty status and keeps the read value |
| Mailbox.BCM2835Mailbox.ReadDoubleWord | utils/mailbox.py:15-28 | READ returns the read value and empties the mailbox; STATUS and PEEK return their register; SENDER, CONFIG and other offsets return 0; only READ changes state |
| Mailbox.BCM2835Mailbox.WriteDoubleWord | utils/mailbox.py:30-39 | a write at 0x20 stores the value and sets the status to 0 on any channel, and on channel 8 processes the buffer at `value >> 4`; other offsets change nothing |
| Mailbox.BCM2835Mailbox.ProcessPropertyBuffer | utils/mailbox.py:41-59 | the in-place loop leaves the bus exactly as `Process` describes |
| Terminal.Trim | static/terminal.js:57 | `trim()`: a slice of the input with only white space cut from each end, neither end of the result white space |
| Terminal.KeyStep | static/terminal.js:51-113 | the definition of the key handler as written: on a correct password it sets the flag and keeps the line |
| Terminal.KeyStepCorrected | static/terminal.js:69-74 | the key handler with the line emptied when authentication succeeds |
| Terminal.CorrectionOnlyClearsLine | static/terminal.js:69-74 | the corrected handler agrees with the handler as written on output, socket action and both flags, and differs only by emptying the line where the right password is accepted |
| Terminal.ConnectStep | static/terminal.js:115-121 | the definition of the `connect` handler: once authenticated, the reconnect banner and an empty line; nothing before |
| Terminal.OutputStep | static/terminal.js:141-146 | the definition of the `terminal_output` handler: once authenticated, the server's text and an empty line; nothing before |
| Terminal.AuthenticationIsPermanent | static/terminal.js:71 | once authenticated, no event clears the flag |
| Terminal.AuthenticationIsPermanentOverRun | static/terminal.js:71 | once authenticated, no sequence of events clears the flag |
| Terminal.AuthenticatesOnlyOnPassword | static/terminal.js:69-78 | before authentication, a step authenticates exactly on Enter at the password prompt with trimmed input `raspberry` |
| Terminal.PasswordPromptOnlyAfterLogin | static/terminal.js:56-68 | from the login prompt, a step reaches the password prompt exactly on Enter with trimmed input `raspberry` |
| Terminal.EnterBeforeAuthentication | static/terminal.js:54-79 | before authentication, Enter with the right login moves to the password prompt with an empty line; with the right password it signs in, keeps the line and asks for the socket; any other line restarts at the login prompt with an empty line and the matching error |
| Terminal.PasswordPromptFollowsLogin | static/terminal.js:56-78 | from page load, whoever stands at the password prompt entered the right login at an earlier event |
| Terminal.AuthenticationNeedsLoginThenPassword | static/terminal.js:54-79 | from page load, authentication needs a right login and, at a later event, a right password |
| Terminal.LoginIsEchoed | static/terminal.js:85-88 | at the login prompt a printable key is appended and echoed as typed |
| Terminal.PasswordIsMasked | static/terminal.js:85-91 | at the password prompt a printable key is appended and every key shows as `*` |
| Terminal.OtherDataIgnoredBeforeAuthentication | static/terminal.js:80-92 | before authentication, data that is not Enter, backspace or one printable character changes nothing and writes nothing |
| Terminal.BackspaceErasesOneCharacter | static/terminal.js:80-84 | backspace drops exactly the last character and writes the erase sequence; on an empty line it does nothing, in both modes |
| Terminal.EnterSendsTrimmedLine | static/terminal.js:95-102 | once authenticated, Enter empties the line and sends the trimmed line when it is not blank, else shows the prompt again |
| Terminal.AuthenticatedDataIsAppended | static/terminal.js:108-111 | once authenticated, any other data, several characters included, is appended and echoed |
| Terminal.CommandsOnlyWhenAuthenticated | static/terminal.js:93-98 | no command is sent before authentication |
| Terminal.SocketEventsClearLineOnlyWhenAuthenticated | static/terminal.js:115-146 | a connection or server output empties the line once authenticated, and changes nothing before |
| Terminal.PasswordLeaksIntoFirstCommandAsWritten | static/terminal.js:69-74 | as written, typing `ls` after signing in sends `raspberryls` |
| Terminal.FirstCommandIsWhatWasTyped | static/terminal.js:69-74 | with the line emptied on authentication, the first command is exactly the trimmed text typed after it |
| Terminal.Session.constructor | static/terminal.js:35-37 | not authenticated, login expected, empty line |
| Terminal.Session.StartAuth | static/terminal.js:40-48 | writes the login prompt, expects the login and empties the line |
| Terminal.Session.OnData | static/terminal.js:51-113 | the handler's new variables, output and socket action are those of `KeyStep`, the handler as written |
| Terminal.Session.OnConnect | static/terminal.js:115-121 | the handler's effect is that of `ConnectStep` |
| Terminal.Session.OnTerminalOutput | static/terminal.js:141-146 | the handler's effect is that of `OutputStep` |
| Terminal.Open | static/terminal.js:148 | page load leaves the session in its initial state after writing the login prompt |
| Server.MergeValue | app.py:45-48 | two dictionaries are merged one level deep with the loaded fields winning; any other value is replaced |
| Server.Merge | app.py:44-48 | every loaded key is merged, added or replaced; keys the snapshot lacks are untouched; no key is removed |
| Server.MergeIdempotent | app.py:68-72 | merging the same snapshot twice gives the state that merging it once gives |
| Server.ToFloat | app.py:77 | the definition of `float()` on a JSON value: booleans give 1.0 or 0.0, numbers themselves, strings what `floatOf` gives, anything else raises |
| Server.Truncate | app.py:50 | `int(x)` truncates toward zero |
| Server.TruncatedPositive | app.py:89 | `int(x) > 0` exactly when x is at least 1 |
| Server.SetField | app.py:80 | item assignment succeeds exactly on a dictionary; reading the field back gives the value set, every other field reads as before, and only that key is added |
| Server.GetField | app.py:89 | the definition of item access: the field of a dictionary holding it, else it raises |
| Server.FanSpeedFor | app.py:84 | the speed is 100 exactly at or above the fan threshold, else 0 |
| Server.Automate | app.py:75-86 | no temperature changes nothing; otherwise the LED value is `temp >= temperature_led`, the fan speed is `FanSpeedFor`, the two commands follow, other keys are untouched, and it raises exactly where `float()` or item assignment would; a raise leaves what came before it: nothing when `float()` or the LED write fails, the LED written and switched when the fan write fails |
| Server.LedOnImpliesFanFull | app.py:79-85 | with the fan threshold at or below the LED threshold, a lit LED means the fan runs at 100 |
| Server.FanStatus | app.py:89 | "En marche" exactly when `float(speed)` is at least 1, otherwise "Arrêté"; none where the expression raises |
| Server.GetState | app.py:63-92 | the definition of `handle_get_state` up to its emit: merge, automation, then the fan status, stopping at the first raise |
| Server.IndexState | app.py:39-52 | the definition of `index` up to rendering: merge, then the fan status |
| Server.NoSnapshotNoChange | app.py:67 | a missing or empty snapshot changes nothing, the fan status included, and sends no command |
| Server.GetStateOutcome | app.py:63-92 | a completed `get_state` keeps every key, adds the loaded ones and `fan_status`, stores a status agreeing with the speed, and a speed of 0 or 100 when there is a temperature |
| Server.UpdateThresholds | app.py:57-59 | only threshold keys named by the request change; no key is added or removed; it completes exactly when `float()` accepts every named value, and then each named key holds its sent value |
| Server.FirstRejected | app.py:57-59 | the first key the request names with a value `float()` rejects: every named key before it is accepted |
| Server.UpdateStopsAtRejection | app.py:57-59 | the update equals the update over the keys before the first rejected one |
| Server.RejectionKeepsEarlierUpdates | app.py:57-59 | after a rejected value, the keys named before it keep their sent values and every other key its old value |
| Server.App.constructor | app.py:14-26 | the initial state and the thresholds 30.0 and 28.0 |
| Server.App.MergeSnapshot | app.py:68-72 | the in-place loop leaves the state that `Merge` describes |
| Server.App.StoreFanStatus | app.py:89 | stores `FanStatus` under `fan_status`, or reports that it raised |
| Server.App.Index | app.py:39-52 | merges the snapshot and stores the fan status, with no automation; renders the state unless a step raised |
| Server.App.SwitchLedAndFan | app.py:75-86 | the in-place field writes leave the state and the commands that `Automate` describes |
| Server.App.HandleGetState | app.py:63-92 | merge, automation and fan status in that order; emits the state unless a step raised |
| Server.App.SetThreshold | app.py:55-61 | the in-place loop leaves the thresholds that `UpdateThresholds` describes and answers with them unless `float()` raised |
| Dashboard.ThermometerPercent | static/dashboard.js:79 | the mercury height is the temperature clamped to [0, 100] |
| Dashboard.HumidityAngle | static/dashboard.js:90 | 0 % maps to -90 and 100 % to 90 degrees; in between it stays in [-90, 90]; outside, unclamped |
| Dashboard.HumidityAngleLinear | static/dashboard.js:90 | the needle turns 1.8 degrees per percent |
| Dashboard.PressureLevel | static/dashboard.js:101 | `(pres - 900) / 200` clamped to [0, 1] |
| Dashboard.PressureAngle | static/dashboard.js:101-102 | always within [-90, 90]; at most 900 hPa gives -90, at least 1100 hPa gives 90 |
| Dashboard.PressureAngleMonotone | static/dashboard.js:101-102 | a higher pressure never turns the needle back |
| Dashboard.FanStatusText | static/dashboard.js:113 | the server's status when truthy, else "En marche" exactly for a positive speed, "Arrêté" otherwise |
| Dashboard.SpinSeconds | static/dashboard.js:116 | the spin duration is positive and lasts `100 / speed` seconds |
| Dashboard.SpinSecondsDecreasing | static/dashboard.js:114-116 | a faster fan never spins slower |
| Dashboard.LedIsOn | static/dashboard.js:125 | on exactly for `"True"`, `true`, `"true"` and `1` |
| Dashboard.LedTruthTable | static/dashboard.js:125-126 | a boolean shows as sent; `"1"`, `"TRUE"`, `"on"`, 2, null, undefined and objects do not light the LED |
| Dashboard.View.OnStateUpdate | static/dashboard.js:73-132 | each present field sets its own gauges from the maps above; a missing or non-numeric field leaves its gauges as they were |
| Dashboard.View.ShowTemperature | static/dashboard.js:74-82 | the temperature block sets the value and the mercury height, or nothing |
| Dashboard.View.ShowHumidity | static/dashboard.js:85-93 | the humidity block sets the value and the needle, or nothing |
| Dashboard.View.ShowPressure | static/dashboard.js:96-105 | the pressure block sets the value and the needle, or nothing |
| Dashboard.View.ShowFan | static/dashboard.js:108-121 | the fan block sets the speed and the label, and spins exactly for a positive speed, or does nothing |
| Dashboard.View.ShowLed | static/dashboard.js:124-132 | the LED block sets the label and the light from `LedIsOn`, or does nothing |

## Left out

- Mailbox.BCM2835Mailbox.WriteDoubleWord: covers the channel-8 writes whose walk reaches a zero tag within a given number of tags, the ghost `fuel`. The source loop stops only at a zero tag and ignores the size word at +0. In the model the bus is a finite map whose unmapped words read 0, and each tag moves the walk at least 12 bytes on, so a walk meets a zero tag soon after it passes the last stored word. The model does not prove a fuel bound for every buffer, so callers state one.
- Mailbox.BCM2835Mailbox.ProcessPropertyBuffer: bounded the same way, by a ghost fuel.
- PropertyBuffer.MilliDegrees: defined for temperatures from 0 up to the largest one whose milli-degrees fit a 32-bit word. The peripheral only ever stores 25.0, so negative temperatures and overflowing writes are not modelled.
- The bitwise operations `value & 0xF`, `value >> 4` and `0x80000000 | value_size` are written as arithmetic on the word's value: remainder, division, and adding the top bit when it is clear. `Channel` and `BufferAddress` only bound their results. The bit-level split of a value into address and channel is stated by `MailboxValueSplits`, and the response code's bits by `ResponseCode`'s contract.
- The buffer address is modelled as the source computes it, `value >> 4`. The firmware's convention clears the low four bits instead.
- The Renode runtime (`PythonPeripheral`, the machine's system bus) is reduced to a word map. Bus reads and writes outside the walk, and peripheral registration, are not modelled.
- `utils/pont.py` (`load_state`) is not part of this model. Its result is the parameter `loaded: Option<State>`, where None is a missing file.
- JSON parsing and Python's `float()` on strings are left out. `float()` on a string is the function `floatOf`, and a NaN or infinite float is not distinguished from other reals.
- `renode_command` and its telnet session are left out; each command is recorded as a string in the returned list. Its failures are printed and ignored by the source, so they do not change the state.
- The `thread_lock`, Flask routing, `render_template`, `jsonify` and the Socket.IO `emit` are left out. The rendered or emitted state is a returned value, and a handler that raised returns None in place of the error response.
- Server.App.SetThreshold: the request body is modelled as already parsed, a map from key to `float()`'s result (None where it raises). A body that is not a JSON object, and the kinds of JSON value, are not modelled.
- Server.FanStatus: `fan_status` is modelled as a string only; `int()` of a float too large for Python's integer conversion does not arise, because reals are unbounded.
- `print` logging in `app.py` and the console logging and `try`/`catch` wrapper in `static/dashboard.js` are left out. A message that makes the handler throw (a null `data`) is not modelled.
- Dashboard: `parseFloat`, `parseInt` and `toFixed(1)` are left out. A gauge's shown value is the parsed number, not its one-decimal text.
- Dashboard.View.ShowFan: the CSS `spinning` class and the animation duration string are the fields `fanSpinning` and `fanSpinSeconds`, and the initial DOM content is not modelled.
- Dashboard: the Socket.IO connection, the polling timer and the unload cleanup are left out. So is the navigation.
- The xterm.js construction, `showCursor` and rendering are left out. Text written to the terminal is the returned output string, and the ANSI colour escapes are opaque parts of it.
- The `connect_error`, `disconnect` and `reconnect_attempt` handlers are left out: they only write text or log, and change no variable.
- `socket.connect()` and `socket.emit('terminal_command', …)` are the effects `ConnectSocket` and `SendCommand`.
- JavaScript strings are sequences of UTF-16 code units; the model's strings are sequences of Unicode scalar values. A key outside the Basic Multilingual Plane therefore has length 1 here but 2 in the source.

## Findings

| source | as written | input that shows it | evidently intended | confidence | as-written member | corrected member |
|---|---|---|---|---|---|---|
| static/terminal.js:69-74 | a correct password sets `authenticated` but leaves the password in `currentInput` | login `raspberry` Enter, password `raspberry` Enter, then `ls` Enter, with no `connect` or `terminal_output` event in between (the socket connects on page load, before authentication) | the first command starts from an empty line, so `ls` is sent | medium, not executed | Terminal.PasswordLeaksIntoFirstCommandAsWritten | Terminal.FirstCommandIsWhatWasTyped |

`Terminal.KeyStep` is the handler as written, and `Terminal.Session.OnData` and the terminal lemmas follow it. `Terminal.KeyStepCorrected` is the corrected handler, and `Terminal.CorrectionOnlyClearsLine` shows that it differs only by emptying the line on sign-in, so the lemmas about output, socket actions and the two flags hold for it too.
