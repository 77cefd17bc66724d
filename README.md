# pyuarm core, modelled in Dafny

This project models the sequential core of pyuarm, the Python library that
drives uFactory's uArm robot arm over a serial line, and proves properties
of that model. The model has four parts.

- **Message layer** (`UArmLink`, `UArmReplies`). This is the threaded `UArm` class.
  - Requests go out as `#<id> <command>` lines. Ids come from a counter that wraps from 65535 back to 1.
  - Requests queue up in a FIFO send queue that a sender drains until it meets the `None` sentinel.
  - A receiver classifies each incoming line. A `$<id> ...` answer goes into the table keyed by id, the readiness line sets a flag, and a position report is pushed onto a LIFO queue.
  - `send_and_receive` waits for its own id. The OK-gated adapters turn the answer tokens into results, and the firmware version is cached.
  - The two threads become step methods that the caller runs: `ProcessLine` for the receiver and `RunSender` for the sender. The wait becomes the sequence of lines the receiver handles before the timeout.
- **Legacy bracket protocol** (`LegacyArm`, `Version`).
  - `send_cmd` frames a command as `[cmd]`, logs each exchange and normalises the reply: brackets removed, lower case.
  - `__parse_cmd` cuts a reply into fields, one per one-letter key.
  - `read_firmware_version` splits `s<product>-<version>`.
  - `connect` gates on the version checks of `version.py`.
  - `get_servo_angle` selects one angle or all four.
- **Port discovery** (`ListUArms`). Ports are filtered by hardware-id prefix, looked up by device name or serial number, and picked from a numbered menu.
- **Firmware flashers** (`AvrdudeCommand`, `BundledFlasher`, `Download`).
  - Three builders of the avrdude command line. The bundled flasher's builder keeps its results in module globals.
  - The download loop with its 60-column progress bar.

`Wrappers` holds the Option and Result types. `Text` holds the Python string operations that the model needs, with their laws:
- `split`, join, `find`, clamped slicing, `replace` of one character, `lower`, `strip`;
- `int()` and `str()` on naturals;
- repetition, where a negative count gives the empty string.

Some inputs of the original become parameters of the model:
- Enumerated serial ports are a sequence of `(device, hwid, serial_number)` records.
- The user's typed answer is a string.
- `platform.system()` is a `Platform` value.
- `os.path.join` is a function parameter.
- `resourcePath('avrdude')` is a directory string.
- The constants of the `protocol` module are given to the model:
  - the readiness line, the report prefix, the OK token and the version query live in a `Protocol` value;
  - the legacy query strings are arguments.
- What the serial port does on a legacy exchange is a `SerialIO` value: the write fails, the read fails, or a line is read.
- The network is the sequence of block lengths that the successive reads return.

## Model

| member | source | states |
|---|---|---|
| UArmLink.ErrorText | pyuarm/uarm.py:39-50 | errno 0 to 4 give "Unable to connect uArm", "Unknown Firmware Version", "Unsupported uArm Firmware Version", "No available uArm Port" and "uArm is not connected", each text for that errno only; any errno outside 0..4 gives "Not Defined Error" |
| UArmLink.ExceptionText | pyuarm/uarm.py:34-53 | the shown text is the errno's error text, a dash, then the message; an absent message counts as empty |
| UArmLink.NextSerialId | pyuarm/uarm.py:284-293 | from an id in 1..65535 the next id is again in 1..65535, so never 0, and differs from the current one |
| UArmLink.NextSerialIdWraps | pyuarm/uarm.py:284-293 | the next id is `n % 65535 + 1`: 65535 wraps to 1 |
| UArmLink.SerialIdAfterIs | pyuarm/uarm.py:284-293 | after k more requests the id is `(n - 1 + k) % 65535 + 1` |
| UArmLink.SerialIdAfterWithinCycle | pyuarm/uarm.py:284-293 | within one cycle of at most 65535 requests the id counts up by k, passing 65535 back to 1 at most once |
| UArmLink.IdsRepeatOnlyAfterFullCycle | pyuarm/uarm.py:284-293 | fewer than 65535 requests never return to the starting id, exactly 65535 do; from connect's initial 1 the first id issued is 2 |
| UArmLink.SenderWritesInOrder | pyuarm/uarm.py:259-277 | with no sentinel queued, the sender writes one frame per request, frame k being `#<id> <msg>` of request k (FIFO order) |
| UArmLink.SenderStopsAtSentinel | pyuarm/uarm.py:261-263 | a `None` item ends the loop without writing: nothing queued after it is written, and only what follows it stays queued |
| UArmLink.ResponseLineEffect | pyuarm/uarm.py:208-211 | a `$` line stores the tokens after the first under the integer that token spells, overwriting any earlier entry, and leaves flag and queue alone; a `$` line with a non-integer id changes nothing |
| UArmLink.OtherIdsUntouched | pyuarm/uarm.py:206-221 | a line that is not an answer for id k leaves k's presence and entry in the table as they were |
| UArmLink.ReadyLineEffect | pyuarm/uarm.py:213-215 | a non-`$` line starting with the readiness token sets the flag and changes nothing else |
| UArmLink.PositionLineEffect | pyuarm/uarm.py:216-221 | a position report pushes exactly one item, tokens 1..3 without their first character, on top of the queue, leaving table and flag alone; a report with fewer than four tokens changes nothing |
| UArmLink.UnmatchedLineEffect | pyuarm/uarm.py:206-221 | a line with none of the three prefixes leaves the whole state unchanged |
| UArmLink.ResponseLineRoundTrip | pyuarm/uarm.py:208-211 | the line `$<id> t1 .. tn` (tokens without spaces) is classified as the answer for `id` with tokens `t1 .. tn` |
| UArmLink.FrameEchoRoundTrip | pyuarm/uarm.py:264-266 | the outbound frame `#<id> <msg>` echoed with `$` is read back as the answer for `id` whose tokens join back into `msg` |
| UArmLink.AwaitAnswersOnlyItsId | pyuarm/uarm.py:305-308 | an answer the wait returns is the token list of a line that carried the caller's own id |
| UArmLink.AwaitFindsFirstResponse | pyuarm/uarm.py:305-308 | the wait returns the tokens of the first line for its id, whatever lines for other ids precede it |
| UArmLink.AwaitTimesOut | pyuarm/uarm.py:305-310 | with no line for its id and no earlier entry, the wait ends with `(None, None)` |
| UArmLink.LifoGet | pyuarm/uarm.py:864 | `LifoQueue.get` on a non-empty queue returns the most recently pushed item |
| UArmLink.ReportPositionAsWritten | pyuarm/uarm.py:864 | `get(self.timeout)` passes the timeout as `block`: on an empty queue a non-zero timeout blocks forever and a zero one raises Empty; otherwise the top item |
| UArmLink.EmptyReportQueueBlocksForever | pyuarm/uarm.py:864 | with any positive timeout, an empty report queue makes `get_report_position` wait forever |
| UArmLink.ReportPosition | pyuarm/uarm.py:858-866 | the result is None exactly when no report is queued, otherwise the most recently pushed report |
| UArmLink.UArm.constructor | pyuarm/uarm.py:57-100 | a new object keeps the port name and timeout, is not connected, and has empty table, queues and no cached version |
| UArmLink.UArm.Connect | pyuarm/uarm.py:119-153 | without a port name and with no uArm port it fails with errno 3 and changes nothing; otherwise it takes the first uArm port when none was named, resets table, flag, queues and cached version, sets the counter to 1, and is connected exactly when the port is listed and opens |
| UArmLink.UArm.Disconnect | pyuarm/uarm.py:185-191 | the object is no longer connected |
| UArmLink.UArm.GenSerialId | pyuarm/uarm.py:284-293 | the counter advances by `NextSerialId` and the new value is returned |
| UArmLink.UArm.ProcessLine | pyuarm/uarm.py:206-221 | the receiver state after one line is the classifier's effect of that line |
| UArmLink.UArm.RunSender | pyuarm/uarm.py:259-277 | while connected, the queue is drained up to and including the first sentinel and exactly the frames of the requests before it are written, in order; not connected, nothing changes |
| UArmLink.UArm.SendMsg | pyuarm/uarm.py:320-331 | not connected raises errno 4 and writes nothing; connected, it writes `#<next id> <msg>` and returns that id |
| UArmLink.UArm.SendAndReceive | pyuarm/uarm.py:301-312 | not connected raises errno 4 and changes nothing; connected, the request with the next id joins the end of the send queue and the result is the wait's answer for that id, `(id, tokens)` or None |
| UArmLink.UArm.FirmwareVersion | pyuarm/uarm.py:360-372 | a cached version is returned without a request and nothing changes; otherwise, when connected, the counter advances, the version query with the new id joins the send queue, the receiver state is the wait's, and the adapter's reading of the answer is returned and cached; not connected gives None and changes nothing |
| UArmLink.UArm.GetReportPosition | pyuarm/uarm.py:864-866 | returns `ReportPosition` of the queue and removes exactly the returned top item |
| UArmReplies.Untagged | pyuarm/uarm.py:407-409 | `token[1:]` is the token without its first character, empty for an empty token |
| UArmReplies.SetterResult | pyuarm/uarm.py:626-633 | no answer (or no token) gives None; a first token equal to OK gives True and any other first token False, each as an if-and-only-if |
| UArmReplies.IsMovingResult | pyuarm/uarm.py:420-429 | on OK, False exactly when the second token reads as 0 after its tag, True exactly when it reads as 1 |
| UArmReplies.IsMovingExamples | pyuarm/uarm.py:425-429 | `V0` gives False, `V1` True, `V2`, a FAIL answer and no answer give None |
| UArmReplies.TipSensorResult | pyuarm/uarm.py:456-466 | on OK, `V0` gives True (pressed) and `V1` False, each as an if-and-only-if |
| UArmReplies.PositionResult | pyuarm/uarm.py:402-412 | a result exists exactly for an OK answer with three more tokens, and is those three without their tags |
| UArmReplies.ServoAngleResult | pyuarm/uarm.py:476-497 | needs an OK answer with four angle tokens; no servo number gives all four in order, servo 0..3 gives that one, any other number gives None |
| UArmReplies.VersionResult | pyuarm/uarm.py:365-370 | a version exists exactly for an OK answer with a second token, and is that token with every `V` removed |
| Version.MajorMinorEnd | pyuarm/version.py:16-17 | the end of the leading `digits.digits` match lies within the string |
| Version.ListedIsMembership | pyuarm/version.py:18-21 | the early-return scan is true exactly when the major version is listed |
| Version.IsAVersionIff | pyuarm/version.py:7-12 | true exactly when the string begins with digits, dot, digits, dot, digits; trailing text allowed |
| Version.VersionHasMajorMinor | pyuarm/version.py:15-17 | a string `is_a_version` accepts never makes `is_supported_version` fail |
| Version.MajorMinorFoundIff | pyuarm/version.py:15-17 | the match exists exactly when the text begins with digits, a dot and a digit, so `is_supported_version` fails with AttributeError exactly when there is no such prefix |
| Version.MajorMinorIsLongest | pyuarm/version.py:16-17 | the match takes the longest leading `digits.digits` prefix |
| Version.SupportedIff | pyuarm/version.py:15-21 | supported exactly when the longest leading `digits.digits` prefix is a listed version |
| Version.SupportedExampleCurrent | pyuarm/version.py:4-21 | `0.9.3` is a version and is supported |
| Version.SupportedExampleLongerMinor | pyuarm/version.py:4-21 | `0.95.1` is a version and is not supported |
| Version.SupportedExampleNewerMajor | pyuarm/version.py:4-21 | `1.0.0` is a version and is not supported |
| Version.SupportedExampleTwoParts | pyuarm/version.py:4-21 | `0.9` is not a version but is supported |
| Version.SupportedExampleNoDigits | pyuarm/version.py:15-17 | `v0.9.3` has no leading major.minor, so `is_supported_version` fails with AttributeError |
| LegacyArm.Normalise | pyuarm/pyuarm.py:136-139 | the cleaned reply holds no bracket and no upper-case letter and is no longer than the raw one |
| LegacyArm.NormaliseIdempotent | pyuarm/pyuarm.py:136-139 | cleaning a cleaned reply changes nothing |
| LegacyArm.FrameEcho | pyuarm/pyuarm.py:110-139 | a bracket-free command framed as `[cmd]` and echoed back cleans to the command in lower case |
| LegacyArm.LogCountsCompletedExchanges | pyuarm/pyuarm.py:113-130 | the log grows by exactly one entry per completed exchange and keeps its old entries; the returned reply is the cleaned form of the logged raw line |
| LegacyArm.ParseCmd | pyuarm/pyuarm.py:149-173 | every argument is a key; no message gives 0 for all; otherwise each argument's value is the text from just after its first occurrence to the first occurrence of the next argument, the last running to the end |
| LegacyArm.ParsedFields | pyuarm/pyuarm.py:150-171 | assigning each argument its field text in argument order leaves exactly the arguments as keys, each holding the text of its last position |
| LegacyArm.FieldTextOfLayout | pyuarm/pyuarm.py:165-169 | round trip: on a reply laid out as key1 value1 key2 value2 ... with distinct one-letter keys absent from the values, the field of key i is value i |
| LegacyArm.VersionReplySplits | pyuarm/pyuarm.py:186-189 | a reply `s<product>-<version>` stores product and version |
| LegacyArm.FirmwareGate | pyuarm/pyuarm.py:71-78 | UnknownFirmware exactly when the version is absent or malformed, UnSupportedFirmware exactly when it is well formed and unsupported, connected exactly when well formed and supported |
| LegacyArm.StaleVersionIsJudged | pyuarm/pyuarm.py:69-78 | a reply not starting with `s` keeps the earlier version and the gate judges that earlier version |
| LegacyArm.SupportedReplyConnects | pyuarm/pyuarm.py:58-78 | a reply carrying a supported version connects |
| LegacyArm.SelectAngle | pyuarm/pyuarm.py:348-354 | no servo number gives all four angles; a number gives an angle exactly when it is in 0..3, and then that angle, else False |
| LegacyArm.ReplyAnglesOfLayout | pyuarm/pyuarm.py:345-347 | the angles read from `s` + a laid-out `b l r h` reply are the four values in order |
| LegacyArm.ServoAnglesRoundTrip | pyuarm/pyuarm.py:340-356 | `get_servo_angle` on such a reply returns the four values, or value n for servo n in 0..3 |
| LegacyArm.UArm.constructor | pyuarm/pyuarm.py:15-18 | a new object has no open port, no log, and no product type or version |
| LegacyArm.UArm.SendCmd | pyuarm/pyuarm.py:104-147 | closed port: None and nothing written; a failed write or read: False, the connected flag cleared, nothing logged; a read line: one log entry and the cleaned reply |
| LegacyArm.UArm.ReadFirmwareVersion | pyuarm/pyuarm.py:177-191 | a reply starting with `s` stores its `-` fields 0 and 1 as product and version; any other reply returns False and stores nothing; no reply is an AttributeError, and an `s` reply without `-` stores the product, then raises IndexError |
| LegacyArm.UArm.StoreVersionReply | pyuarm/pyuarm.py:186-191 | an `s` reply stores `-` field 0 as product and field 1 as version, an `s` reply without `-` stores the product and then is an IndexError, any other reply is False and stores nothing, and no reply is an AttributeError |
| LegacyArm.UArm.Connect | pyuarm/pyuarm.py:58-78 | a port that does not open raises and changes nothing, the connected flag included; otherwise the log restarts, the exchange sets the connected flag as `send_cmd` does, the version is read and the result is the gate's verdict on the stored version |
| LegacyArm.UArm.GetServoAngle | pyuarm/pyuarm.py:340-356 | the result is `get_servo_angle`'s selection from the exchange's reply, with the exchange's effects on wire, log and flag |
| ListUArms.HwidMatches | pyuarm/tools/list_uarms.py:9 | a hwid matches exactly when it starts with the keyword |
| ListUArms.MatchingDevicesAppend | pyuarm/tools/list_uarms.py:6-11 | filtering distributes over concatenation, so enumeration order is kept |
| ListUArms.MatchingDevicesMembers | pyuarm/tools/list_uarms.py:6-11 | the filtered list is no longer than the enumeration and holds exactly the devices of ports whose hwid prefix is the keyword |
| ListUArms.ShortHwidNeverMatches | pyuarm/tools/list_uarms.py:9 | an hwid shorter than the keyword never matches |
| ListUArms.UarmPorts | pyuarm/tools/list_uarms.py:6-11 | the loop returns exactly the filtered device list; with the hardware id as a parameter it is also `get_uarm_ports` of pyuarm/tools/firmware/flash_firmware.py (lines 64-69) |
| ListUArms.CheckPortPlugIn | pyuarm/tools/list_uarms.py:14-19 | true exactly when some port's serial number equals the given one |
| ListUArms.GetPortProperty | pyuarm/tools/list_uarms.py:39-43 | None exactly when no port has the name; otherwise the first port with that device name |
| ListUArms.ChosenPortAsWritten | pyuarm/tools/list_uarms.py:30-31 | an integer answer k is accepted exactly when `-n < k <= n`, picking port k for k in 1..n and port `n + k` counted from the front for k in `-n+1..0`; a non-integer is a ValueError |
| ListUArms.ChoiceZeroPicksLastPort | pyuarm/tools/list_uarms.py:31 | with two or more ports, answer `0` picks the last port |
| ListUArms.ChosenPort | pyuarm/tools/list_uarms.py:25-32 | the result is port k for an answer k in 1..n, it exists for every such answer, and a non-integer is a ValueError |
| ListUArms.ChosenPortAgrees | pyuarm/tools/list_uarms.py:30-31 | on every answer the menu offers, the code as written and the corrected selection both give port k |
| ListUArms.GetUarmPortCli | pyuarm/tools/list_uarms.py:22-36 | no uArm port gives None, one gives it, several print a menu numbered from 1 and answer k picks port k |
| AvrdudeCommand.GenFlashCmd | pyuarm/tools/firmware.py:103-131 | the appended list is `FlashCommand`: program part, six options, `-v` when debugging; an unknown system gives `(None, "Not support System")` and each system its own hint; pyuarm/tools/flash_firmware.py (lines 80-108) has the same builder |
| AvrdudeCommand.FlashCommandShape | pyuarm/tools/firmware.py:117-131 | one program element without a directory, two (joined program and `avrdude.conf`) with one; then `-patmega328p -carduino -P<port> -b115200 -D -Uflash:w:<file>:i`; `-v` last exactly when debugging |
| AvrdudeCommand.BinaryPerSystem | pyuarm/tools/firmware.py:104-116 | Windows runs `avrdude.exe`, Darwin and Linux `avrdude`, each with a distinct hint; an unknown system gets no command |
| Download.ProgressBar | pyuarm/tools/flash_firmware.py:60-63 | the bar's column i is `#` exactly when i is below `(60*total)//size`, and its length is 60 unless more than the size arrived |
| Download.ProgressBarWidth | pyuarm/tools/flash_firmware.py:60-63 | while total is at most the size, at most 60 `#` and exactly 60 columns; full at the size, blank at zero |
| Download.ProgressBarGrows | pyuarm/tools/flash_firmware.py:60 | more bytes never give fewer `#` |
| Download.Download | pyuarm/tools/flash_firmware.py:43-77 | a zero size fails on the first division; otherwise one bar per read up to and including the first empty read, bar k for the first k+1 reads, and the total is the sum of the non-empty reads; pyuarm/tools/firmware/flash_firmware.py (lines 89-123) has the same loop |
| Download.DownloadBarsFit | pyuarm/tools/flash_firmware.py:56-68 | when no more than the announced size arrives, every bar drawn is 60 columns and has at least as many `#` as the one before |
| BundledFlasher.BundledCommandShape | pyuarm/tools/firmware/flash_firmware.py:131-148 | the command has nine elements: program, configuration option, `-v`, then the six options; on Linux the program is `avrdude` with an empty option, on Darwin and Windows the option starts with `-C` |
| BundledFlasher.FlasherGlobals.constructor | pyuarm/tools/firmware/flash_firmware.py:126-127 | before the first call no global is assigned |
| BundledFlasher.FlasherGlobals.GenFlashCmd | pyuarm/tools/firmware/flash_firmware.py:126-149 | the option restarts empty; a missing directory becomes the resource directory; with a port, the system's program, option and hint are set (an unknown system sets none) and the nine-element command is built; a never-assigned program or command is a NameError; an empty port returns the previous command |
| BundledFlasher.UnknownSystemAfterDarwin | pyuarm/tools/firmware/flash_firmware.py:131-149 | on an unknown system a first call is a NameError, but after a Darwin call it returns the bundled mac program with an empty option |
| BundledFlasher.GetUarmPortCli | pyuarm/tools/firmware/flash_firmware.py:72-86 | over the ports with the default hardware id: none prints "No uArm ports is found." and gives None, one gives it, several give the menu and port k for answer k |

## Left out

- Threads, clocks and busy-wait timeouts are not modelled. The receive and send threads are the step methods `ProcessLine` and `RunSender`. The timeout of `send_and_receive` is the list of lines the receiver handles before it expires. The sender's wait after each write (pyuarm/uarm.py:273-276) only delays the next write, so `RunSender` leaves it out. `connect`'s wait for the readiness line is not modelled.
- The serial port, `list_ports`, `input`, `print`, `urllib`, `subprocess` and files are not modelled: their results are inputs, and printed text is not kept except the port menu and the bundled flasher's "No uArm ports is found.". Logging and debug output are left out too.
- The `protocol` and `threaded` modules are not part of this model. Their constants are parameters. With Python 3 the connection state comes from the threaded protocol object; here it is a boolean field.
- `float()` on coordinates, angles and parsed fields is not modelled: numeric fields stay tokens. The percentage text of the progress line and the bytes of the download are left out too.
- ListUArms.GetUarmPortCli: the answer is read with the corrected `ChosenPort`, so answers from `-n+1` to `0` are refused with IndexError, where pyuarm/tools/list_uarms.py:31 picks a port counted from the end (see Findings; `ChosenPortAsWritten` is the code as written).
- BundledFlasher.GetUarmPortCli: the same corrected choice; pyuarm/tools/firmware/flash_firmware.py:80 has the same negative-index behaviour as written.
- UArmLink.UArm.GetReportPosition: implements the corrected `get`, giving None on an empty queue, where pyuarm/uarm.py:864 blocks until a report arrives (see Findings; `ReportPositionAsWritten` is the code as written).
- UArmLink.ExceptionText: `__str__` wraps the text in `repr`; its quotes and escapes are not modelled, so the function gives the text before quoting.
- LegacyArm.UArm.SendCmd: the bracket-count check is only logged in the source, so it has no effect in the model. `flushInput` is not modelled.
- `UArm.__init__` in pyuarm.py is not modelled: its choice of the first uArm port and its `NoUArmPortException` are left out. So are `disconnect`, `reconnect` and every command other than the version read and `get_servo_angle` (`move_to`, `get_coords`, pump and gripper commands and so on).
- UArmLink.UArm.Connect: the message of errno 0 (port and `strerror`) is not kept. A port that `get_port_property` cannot find is the AttributeError of `self.port.device` on None.
- The remaining commands of uarm.py are not modelled: `hardware_version` (the same shape as `firmware_version`), `get_polar`, `get_analog`, `get_digital`, `get_rom_data`, `set_position`, `set_polar_coordinate`, the servo attach and detach commands, and the button queues. The setters `set_gripper`, `set_servo_angle`, `set_buzzer` and `set_report_position` share `SetterResult`. Their no-wait branch is `send_msg`.
- `os.path.join` and `resourcePath` are abstract parameters. The model does not fix how paths are put together.
- `str.lower` and `isdigit` cover ASCII only. `int()`'s surrounding whitespace and underscores are not modelled; a leading sign is.
- The `download` of pyuarm/tools/firmware.py draws its bar with `util.progressbar`, which is not part of this model. An announced size that is missing (`u.length` is None) is not modelled.

## Findings

| source | as written | input that shows it | evidently intended | confidence | as-written member | corrected member |
|---|---|---|---|---|---|---|
| pyuarm/tools/list_uarms.py:31 | `ports[int(port_index) - 1]` uses Python's negative indexing, so answers outside the offered 1..n are still accepted | two or more uArm ports and the answer `0`, which picks the last port (as does any answer from `-n+1` to `0`) | answers outside 1..n are rejected | not executed | ListUArms.ChoiceZeroPicksLastPort | ListUArms.ChosenPort |
| pyuarm/uarm.py:864 | `self.__position_queue.get(self.timeout)` passes the timeout as the `block` flag, with no timeout | an empty report queue and the default timeout 2, which blocks forever | wait at most `timeout` seconds, then give nothing | not executed | UArmLink.EmptyReportQueueBlocksForever | UArmLink.ReportPosition |
