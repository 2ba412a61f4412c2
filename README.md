# SoE (Serial over Ethernet) in Dafny

SoE carries a serial line over TCP. It is a suite of Python programs:

- **Server** (versions 0.0.52b and 0.0.53). It owns the serial port and accepts one client at a time.
  - It asks each client who it is, with `__#GETVER#__` and `__#GET_KA_TIMEOUT#__`.
  - It authorises the client, either with no password configured or through a `__#PWD_<p>#__` token.
  - It then relays bytes both ways.
- **Bridge** (0.0.70). It connects a local COM port or a Windows named pipe to a server.
  - It identifies itself, exchanges serial parameters (`__#COM_PARAMS_…#__`) and rates the server's keepalive.
  - It forwards data to the serial side only once that side is ready.
  - It keeps a log window and a transfer window.
- **Client** (0.0.56). It is a terminal.
  - It answers the server's requests and removes the control tokens from what it shows.
  - It translates Windows extended keys into ANSI sequences and sends keystrokes.
- **Two Cisco-like console emulators** that sit at the far end of the serial line:
  - `serial_emu.py` has the USER, PRIVILEGED and CONFIG modes, an enable password, line editing, tab completion and history arrows.
  - `serial_device_0.0.1.py` is a simpler line-oriented device.

All programs share one in-band protocol. A control message is a token `__#NAME#__` embedded in the byte stream.

## Modules

| file | module | what it models |
|---|---|---|
| text.dfy | `Text` | The Python string operations the programs rely on: `find`, `in`, `split(a)[1].split(b)[0]`, `strip`, `lower`, `isdigit` and `f"{n}"`. It also has the bounded list used for histories and log buffers. |
| tokens.dfy | `Protocol` | The control tokens and the `--showtransfer` option. |
| console.dfy | `Console` | The parts both emulators share: line-ending normalisation, the line-format, port and pipe validators, command dispatch order and the history listing. |
| emu.dfy | `SerialEmu` | `serial_emu.py`: a functional specification plus the class `CiscoLikeDevice` and the status bar `Tui`. |
| device.dfy | `SerialDevice` | `serial_device_0.0.1.py`: a functional specification plus the class `Device`. |
| client.dfy | `SoeClient` | The client's receive thread, send thread, key conversion and configuration file reader. |
| bridge.dfy | `SoeBridge` | The bridge's receive loop (`Step`), its ANSI and layout sanitisers, the keepalive rating, the argument check, log entries and the class `Bridge`. |
| server.dfy | `SoeServer` | Both server versions' session logic (`Step` takes the version) and the class `Server`. |
| server_args.dfy | `SoeServerArgs` | `validate_args` of server 0.0.53. |
| interop.dfy | `SoeInterop` | What one program writes and another reads back. |

Shared modelling decisions:

- A network or serial chunk is a `string` whose characters stand for bytes.
- `decode(errors='replace')` is the identity on such text.
- Python's `lower`, `upper`, `isdigit` and `isalnum` are modelled on ASCII.
- `strip` uses Python's whitespace set.
- Each regular expression is an explicit scanner. `Sub` is `re.sub` with an empty replacement: a leftmost, non-overlapping scan.

The following become parameters:

- shell command execution and the time-dependent texts (the `Host` datatype);
- `inet_aton`'s verdict (`addressOk`);
- the platform (`win32`);
- the configured values.

Where a method of a class is proved against a function, the method's `ensures` ties the new state to that function. The lemmas about the function state what the source promises.

## Model

| member | source | states |
|---|---|---|
| Text.Find | serial_device_0.0.1.py:620-621 | `s.find(t)` returns the first index where `t` occurs, or -1 when there is none. |
| Text.Before | serial_client_0.0.56_LinWin.py:547 | `split(sep)[0]` is a prefix that holds no `sep`; it is the whole text when `sep` is absent. |
| Text.BeforeFirst | serial_client_0.0.56_LinWin.py:547 | `split(sep)[0]` stops at the first `sep`: when `sep` occurs, what follows the piece starts with `sep`. The piece is the whole text exactly when `sep` is absent. |
| Text.Field | serial_client_0.0.56_LinWin.py:290 | `split(open)[1].split(close)[0]` contains neither the closing nor the opening marker. |
| Text.FieldRoundTrip | serial_client_0.0.56_LinWin.py:301 | A value written between its markers is read back unchanged, provided it holds neither marker's first character. |
| Text.StripSpec | serial_client_0.0.56_LinWin.py:302 | `strip()` returns a window of the input, and everything cut off on either side is whitespace. |
| Text.StripEnds | serial_client_0.0.56_LinWin.py:302 | A stripped text neither starts nor ends with whitespace. |
| Text.StripEmptyIff | serial_client_0.0.56_LinWin.py:306 | `not s.strip()` holds exactly when every character is whitespace. |
| Text.Split | serial_server_0.0.53_LinWin.py:950 | `split(sep)` gives at least one piece, and no piece contains the separator. |
| Text.SplitStep | serial_server_0.0.53_LinWin.py:950 | `split` takes the text before the first separator, then splits what follows it. |
| Text.SplitJoin | serial_server_0.0.53_LinWin.py:950 | `sep.join(s.split(sep)) == s`: the pieces with the separators between them are the whole text. |
| Text.LStrip | serial_client_0.0.56_LinWin.py:302 | `lstrip()` removes exactly the leading whitespace: the result is a suffix that does not start with whitespace. |
| Text.RStrip | serial_client_0.0.56_LinWin.py:302 | `rstrip()` removes exactly the trailing whitespace: the result is a prefix that does not end with whitespace. |
| Text.NatToDec | serial_server_0.0.53_LinWin.py:961 | `f"{n}"` is a non-empty digit string without a leading zero unless n is 0. |
| Text.Lower | serial_emu.py:867 | `lower()` maps every character and keeps the length. |
| Text.NatToDecRoundTrip | serial_client_0.0.56_LinWin.py:560-561 | `int` of the decimal text `f"{n}"` is `n`. |
| Text.PushBounded | serial_bridge_0.0.70_LinWin.py:537-538 | Appending to a list that drops its oldest entry past the cap: the new entry comes last, the length is capped, and the older entries keep their order. |
| Protocol.ShowTransferModesOf | serial_bridge_0.0.70_LinWin.py:238-243 | `<format>,<direction>` is read back as both parts lower-cased; a value without a comma shows all directions. |
| Console.CrToLf | serial_emu.py:566 | `replace('\r', '\n')` changes exactly the carriage returns. |
| Console.CrLfOnlyMeans | serial_emu.py:560-568 | Well-formed output is exactly text in which every CR is followed by LF and every LF is preceded by CR. |
| Console.NormalizeWellFormed | serial_emu.py:560-568 | `_normalize_line_endings` always produces well-formed CR LF text. |
| Console.NormalizeFixesWellFormed | serial_emu.py:560-568 | Text that is already well-formed is left unchanged. |
| Console.NormalizeIdempotent | serial_emu.py:560-568 | Normalising twice is the same as normalising once. |
| Console.LfToCrLfWellFormed | serial_emu.py:567 | Replacing LF by CR LF in text without CR gives well-formed text. |
| Console.RemoveN | serial_emu.py:1623 | `replace('N', '')` leaves no `N` and never lengthens the text. |
| Console.StopBitsAccepted | serial_emu.py:1623-1629 | The stop-bit parts `1N`, `1.5N` and `2N` pass the `float(...) in [1.0, 1.5, 2.0]` test. |
| Console.FormatAccepted | serial_emu.py:1615-1634 | Data bits 5 to 8, parity N, O or E, and stop bits 1, 1.5 or 2 with flow N form an accepted line format. |
| Console.TableAccepted | serial_emu.py:1608-1634 | Every entry of `VALID_LINE_FORMATS` passes `validate_line_format`. |
| Console.ComportForms | serial_emu.py:1636-1644 | On Windows, `COM` in any case followed by digits is accepted, and a bare `COM` or a device path is refused. Elsewhere, `/dev/tty…` is accepted and `COM` names are refused. |
| Console.NamedpipeForms | serial_device_0.0.1.py:769-776 | Pipe names are refused off Windows. On Windows, empty names and names with a character other than letters, digits or `_` are refused. |
| Console.FirstPrefix | serial_emu.py:966-969 | The builtin found is the first table entry whose name prefixes the command; no earlier entry does; `None` means that no entry does. |
| Console.FirstExact | serial_emu.py:971-979 | An exact-name lookup finds a value exactly when some entry has that name, and the value belongs to such an entry. |
| Console.RouteSpec | serial_emu.py:949-982 | Dispatch order:<br>1. a builtin exactly when some name prefixes the command, taking the first one, with the stripped rest as its arguments;<br>2. otherwise an exact custom command;<br>3. otherwise an exact platform command;<br>4. otherwise unknown. |
| Console.FindPrefix | serial_emu.py:966-969 | The `for … startswith` loop computes `FirstPrefix`. |
| Console.FindExact | serial_emu.py:977-979 | The exact-match loop over platform commands computes `FirstExact`. |
| Console.FormatHistory | serial_emu.py:782-789 | The `_cmd_history` loop gives "No history" when empty; otherwise it numbers the last 20 entries from 1. |
| SerialEmu.AllCommands | serial_emu.py:510-523 | The completion list holds exactly the builtin, platform and custom names. |
| SerialEmu.SortedNames | serial_emu.py:523 | `sorted(set)` is ascending and holds exactly the given names. |
| SerialEmu.Insert | serial_emu.py:523 | Insertion keeps the list ascending and adds exactly the new name. |
| SerialEmu.BelowTotal | serial_emu.py:523 | The string order used for sorting is total. |
| SerialEmu.Matches | serial_emu.py:867-868 | The candidates are exactly the commands that start with the lower-cased partial text. |
| SerialEmu.TabCompleteSpec | serial_emu.py:865-879 | Completion happens exactly when one command matches, and then partial plus suffix is that command. "No match" holds exactly when no command starts with the text. |
| SerialEmu.Apply | serial_emu.py:668-716 | The handlers never touch the line buffer.<br>Only `enable` turns password mode on.<br>Only `hostname` changes the name.<br>Only `clear history` changes the history.<br>USER mode is never left through a handler, and CONFIG is reachable only from PRIVILEGED. |
| SerialEmu.Record | serial_emu.py:956-963 | The history index is reset. When history is on and password mode is off, the command is appended last and the history is capped at 100; otherwise the history is unchanged. |
| SerialEmu.Process | serial_emu.py:949-982 | An empty line changes nothing and outputs nothing. A non-empty line resets the history index. History stays bounded, and USER mode is never left. |
| SerialEmu.Dispatch | serial_emu.py:965-982 | Dispatch keeps the line buffer and a reset history index, keeps history bounded, and never leaves USER mode. |
| SerialEmu.DispatchBuiltin | serial_emu.py:966-969 | A command with a builtin prefix runs the first such handler on the stripped rest. |
| SerialEmu.DispatchOther | serial_emu.py:971-982 | Without a builtin prefix: the custom shell command, else the platform one, else "Unknown command". |
| SerialEmu.ProcessHistory | serial_emu.py:951-963 | A non-empty line is lower-cased and stripped, then recorded, then dispatched. |
| SerialEmu.DispatchKeepsHistory | serial_emu.py:965-982 | No command except `clear history` changes the history. |
| SerialEmu.ClearHistoryEmpties | serial_emu.py:774-780 | With history on, an entered `clear history` leaves it empty; the command itself is not kept. |
| SerialEmu.DispatchClears | serial_emu.py:774-780 | With history on, dispatching `clear history` empties the history. |
| SerialEmu.ClearLine | serial_emu.py:927 | The line-clearing output is a CR, one blank per buffered character, and a CR. |
| SerialEmu.FixedRepliesWellFormed | serial_emu.py:1428-1434 | The fixed replies (CR LF, the Ctrl-C echo and "Access denied") are well-formed CR LF text. |
| SerialEmu.CtrlCEchoWellFormed | serial_emu.py:911 | The Ctrl-C echo `^C` CR LF is well-formed CR LF text. |
| SerialEmu.AccessDeniedWellFormed | serial_emu.py:1430 | The refused-password reply is well-formed CR LF text. |
| SerialEmu.PlainBetweenCrLfs | serial_emu.py:1430 | Plain text between CR LF pairs is well-formed. |
| SerialEmu.Spaces | serial_emu.py:927 | The blanking text has exactly n characters, all spaces. |
| SerialEmu.SpecialKey | serial_emu.py:881-915 | Tab, backspace (8 or 127) and Ctrl-C are handled; ESC, CR and LF are not.<br>Backspace drops exactly the last character.<br>Ctrl-C empties the line.<br>Tab appends the completion suffix exactly when `TabComplete` completes, and otherwise keeps the line.<br>Backspace echoes `\b \b` when it erased something, and Ctrl-C echoes `^C` CR LF.<br>An unhandled key changes nothing and writes nothing.<br>Only the line buffer changes. |
| SerialEmu.Key | serial_emu.py:1398-1407 | A handled key has the effect of `SpecialKey`. An unhandled byte in 32..126 is appended to the line and echoed unless a password is being typed. Any other unhandled byte changes nothing. |
| SerialEmu.Keys | serial_emu.py:1398-1407 | The per-byte loop over a chunk changes at most the line buffer. |
| SerialEmu.Chars | serial_emu.py:1405 | `chr` of each byte, in order. |
| SerialEmu.Echoes | serial_emu.py:1406-1407 | One echo write per byte, holding that byte's character. |
| SerialEmu.KeyPrintable | serial_emu.py:1399-1407 | A printable byte is appended to the line and echoed unless a password is being typed. |
| SerialEmu.KeysPrintable | serial_emu.py:1398-1407 | A chunk of printable ASCII lands in the line as it came, and nothing else changes. |
| SerialEmu.KeysEchoes | serial_emu.py:1398-1407 | A chunk of printable ASCII is echoed byte by byte unless a password is being typed. |
| SerialEmu.Escape | serial_emu.py:917-947 | Arrow sequences move the history index within bounds. A non-arrow sequence consumes nothing and changes nothing. Moving onto an entry shows that entry. Going down past the newest entry empties the line. |
| SerialEmu.UpArrowWalksBack | serial_emu.py:923-931 | Pressing up k times from a fresh line shows the k-th newest command. |
| SerialEmu.UpTimes | serial_emu.py:923-931 | Repeated up arrows keep the index within the history and never change it. |
| SerialEmu.Submit | serial_emu.py:1410-1442 | An entered line empties the buffer and leaves password mode, keeps history bounded, and ends its output with the prompt. |
| SerialEmu.PasswordEntered | serial_emu.py:1423-1431 | The password line leaves password mode and sends a reply followed by the prompt. |
| SerialEmu.CommandEntered | serial_emu.py:1432-1442 | A command line echoes CR LF first and sends the prompt last. |
| SerialEmu.Reply | serial_emu.py:1433-1442 | A reply to a command starts with CR LF and ends with the prompt. |
| SerialEmu.PasswordLine | serial_emu.py:1423-1431 | The line after `enable` reaches PRIVILEGED exactly when it equals the enable password; otherwise the mode is kept and "Access denied" is sent. |
| SerialEmu.NoEscalation | serial_emu.py:692-709 | From USER mode, an entered line never reaches CONFIG, and reaches PRIVILEGED only through password mode with the right password. |
| SerialEmu.Receive | serial_emu.py:1388-1442 | One worker-loop pass keeps history bounded.<br>An arrow sequence at the head of the escape buffer is consumed and nothing else happens.<br>Otherwise the keys are applied. If the chunk holds a line ending, `Submit` then runs on the edited line and the escape buffer is emptied; if not, the chunk stays in the escape buffer. |
| SerialEmu.FindLineEnd | serial_emu.py:1410-1413 | The scan for a line ending finds one exactly when the chunk holds CR or LF. |
| SerialEmu.CiscoLikeDevice.constructor | serial_emu.py:472-508 | Starts in USER mode with an empty buffer and history and with the index at -1. Password mode is off, and the completion list is `AllCommands`. |
| SerialEmu.CiscoLikeDevice.CmdExit | serial_emu.py:668-683 | CONFIG goes to PRIVILEGED, PRIVILEGED goes to USER, and USER stays. The output is empty. |
| SerialEmu.CiscoLikeDevice.CmdEnd | serial_emu.py:685-690 | Only CONFIG changes, to PRIVILEGED. |
| SerialEmu.CiscoLikeDevice.CmdEnable | serial_emu.py:692-697 | In PRIVILEGED nothing happens. Otherwise password mode turns on and `Password: ` is written. |
| SerialEmu.CiscoLikeDevice.CmdDisable | serial_emu.py:699-702 | The mode becomes USER. |
| SerialEmu.CiscoLikeDevice.CmdConfig | serial_emu.py:704-709 | USER gets "No permission" and stays; any other mode enters CONFIG. |
| SerialEmu.CiscoLikeDevice.CmdHostname | serial_emu.py:711-716 | A non-blank argument becomes the stripped hostname; a blank one reports the current name. |
| SerialEmu.CiscoLikeDevice.CmdClearHistory | serial_emu.py:774-780 | With history on, the history empties and the index resets; otherwise "History disabled" is returned. |
| SerialEmu.CiscoLikeDevice.CmdHistory | serial_emu.py:782-789 | The listing is `HistoryText` of the current history. |
| SerialEmu.CiscoLikeDevice.RunHandler | serial_emu.py:966-969 | Running a handler has the effect `Apply` specifies. |
| SerialEmu.CiscoLikeDevice.RunReadOnly | serial_emu.py:718-772 | The read-only handlers change no state. |
| SerialEmu.CiscoLikeDevice.RunUpdating | serial_emu.py:668-716 | The updating handlers have the effect `Apply` specifies. |
| SerialEmu.CiscoLikeDevice.ProcessCommand | serial_emu.py:949-982 | `process_command` has the effect of `Process` and keeps the class invariant. |
| SerialEmu.CiscoLikeDevice.RecordCommand | serial_emu.py:956-963 | Recording has the effect of `Record`. |
| SerialEmu.CiscoLikeDevice.RunCommand | serial_emu.py:965-982 | The dispatch part has the effect of `Dispatch`. |
| SerialEmu.CiscoLikeDevice.HandleSpecialKey | serial_emu.py:881-915 | `_handle_special_key` has the effect of `SpecialKey`. |
| SerialEmu.CiscoLikeDevice.ProcessEscapeSequence | serial_emu.py:917-947 | `_process_escape_sequence` has the effect of `Escape`. |
| SerialEmu.CiscoLikeDevice.SubmitLine | serial_emu.py:1410-1442 | Submitting a line has the effect of `Submit`. |
| SerialEmu.CiscoLikeDevice.SubmitPassword | serial_emu.py:1423-1431 | The password branch has the effect of `PasswordEntered`. |
| SerialEmu.CiscoLikeDevice.SubmitCommand | serial_emu.py:1432-1442 | The command branch has the effect of `CommandEntered`. |
| SerialEmu.CiscoLikeDevice.ReceiveKey | serial_emu.py:1399-1407 | One byte has the effect of `Key`. |
| SerialEmu.CiscoLikeDevice.ReceiveKeys | serial_emu.py:1398-1407 | The per-byte loop has the effect of `Keys`. |
| SerialEmu.CiscoLikeDevice.ReceiveData | serial_emu.py:1388-1442 | One worker-loop pass has the effect of `Receive` on the state and the escape buffer. |
| SerialEmu.Tui.constructor | serial_emu.py:87-103 | The status bar starts disconnected with both counters at zero. |
| SerialEmu.Tui.SetConnected | serial_emu.py:121-133 | The peer type is recorded only while connected; the counters are unchanged. |
| SerialEmu.Tui.IncrementIn | serial_emu.py:256-261 | The IN counter goes up by one and nothing else changes. |
| SerialEmu.Tui.IncrementOut | serial_emu.py:263-268 | The OUT counter goes up by one and nothing else changes. |
| SerialDevice.ExitConfigShadowed | serial_device_0.0.1.py:262-279 | Every command starting with `exit`, including `exit-config`, reaches the `exit` handler, because `exit` comes first in the table. |
| SerialDevice.HelpAliases | serial_device_0.0.1.py:276-278 | `?`, `help` and `h` all reach help. |
| SerialDevice.EveryHIsBuiltin | serial_device_0.0.1.py:271-278 | Every command starting with `h` reaches a builtin, so no custom or platform command starting with `h` is ever run. |
| SerialDevice.Apply | serial_device_0.0.1.py:339-403 | No handler turns enable mode on.<br>`disable` turns it off.<br>Only `hostname` renames, and to the stripped argument.<br>Only `clear history` changes the history, and it empties it.<br>Only `exit` stops the device.<br>Only `exit` and `enable` write directly. |
| SerialDevice.Record | serial_device_0.0.1.py:449-453 | With history on, the command is appended last and the history is capped at 100; with history off, nothing changes. |
| SerialDevice.Process | serial_device_0.0.1.py:442-472 | An empty line does nothing. History stays bounded, and enable mode is never gained. |
| SerialDevice.Dispatch | serial_device_0.0.1.py:455-472 | Dispatch keeps history bounded and never gains enable mode. |
| SerialDevice.DispatchBuiltin | serial_device_0.0.1.py:456-459 | The first builtin prefix runs on the stripped rest. |
| SerialDevice.DispatchOther | serial_device_0.0.1.py:461-472 | Then custom, then platform, then "Unknown command". |
| SerialDevice.ProcessHistory | serial_device_0.0.1.py:444-453 | A non-empty line is lower-cased and stripped, recorded, then dispatched. |
| SerialDevice.PromptNeverPrivileged | serial_device_0.0.1.py:345-354 | `enable` only prints a password prompt; the prompt never turns into `#`. |
| SerialDevice.FirstLineEnd | serial_device_0.0.1.py:618-629 | The split point is the first CR or LF, or -1. |
| SerialDevice.LineEndFound | serial_device_0.0.1.py:618-629 | A split point exists exactly when `find('\n')` or `find('\r')` succeeds. |
| SerialDevice.LStripLineEnds | serial_device_0.0.1.py:633 | `lstrip('\r\n')` removes exactly the leading line-end characters. |
| SerialDevice.SplitLines | serial_device_0.0.1.py:618-633 | What remains buffered holds no line ending. |
| SerialDevice.SplitLinesClean | serial_device_0.0.1.py:618-633 | No extracted line holds a line ending. |
| SerialDevice.SplitOneLine | serial_device_0.0.1.py:618-633 | A line followed by its line-end characters is taken off as the stripped line, and splitting continues on the rest. |
| SerialDevice.NextLine | serial_device_0.0.1.py:631-633 | Taking one line shrinks the buffer and is the first step of the split. |
| SerialDevice.SplitTerminated | serial_device_0.0.1.py:618-633 | Lines written with any CR/LF terminator are read back stripped, in order, with the unterminated tail kept buffered. |
| SerialDevice.Terminated | serial_device_0.0.1.py:651-655 | Output gets CR LF appended unless it already ends in CR or LF. |
| SerialDevice.Handle | serial_device_0.0.1.py:635-665 | A blank line gets only the prompt. Any other line is echoed with CR LF first and followed by the prompt last. History stays bounded. |
| SerialDevice.HandleAll | serial_device_0.0.1.py:618-665 | Each line produces output, the last thing sent is the prompt, and enable mode is never gained. |
| SerialDevice.OutputChunk | serial_device_0.0.1.py:651-655 | Only non-empty output is written, terminated. |
| SerialDevice.Device.constructor | serial_device_0.0.1.py:244-281 | The device starts not in enable mode, with an empty history, running, and with an empty input buffer. |
| SerialDevice.Device.Interrupt | serial_device_0.0.1.py:298-299 | SIGINT stops the device and changes nothing else. |
| SerialDevice.Device.CmdExit | serial_device_0.0.1.py:339-343 | `exit` writes "Device disconnecting..." and stops the device. |
| SerialDevice.Device.CmdDisable | serial_device_0.0.1.py:351-354 | `disable` leaves enable mode. |
| SerialDevice.Device.CmdHostname | serial_device_0.0.1.py:365-370 | A non-blank argument is set as the stripped hostname; a blank one reports the current name. |
| SerialDevice.Device.CmdClearHistory | serial_device_0.0.1.py:389-394 | With history on, the history is emptied; otherwise "History disabled" is returned. |
| SerialDevice.Device.RunHandler | serial_device_0.0.1.py:456-459 | A handler has the effect `Apply` specifies. |
| SerialDevice.Device.ProcessCommand | serial_device_0.0.1.py:442-472 | `process_command` has the effect of `Process`. |
| SerialDevice.Device.RunCommand | serial_device_0.0.1.py:455-472 | Dispatch has the effect of `Dispatch`. |
| SerialDevice.Device.HandleLine | serial_device_0.0.1.py:635-665 | One line has the effect of `Handle`. |
| SerialDevice.Device.TakeLine | serial_device_0.0.1.py:631-633 | Taking a line has the effect of `NextLine` on the buffer. |
| SerialDevice.Device.ReceiveData | serial_device_0.0.1.py:609-665 | A chunk handles every complete line in the buffer in order and keeps the unterminated rest. The buffer never holds a line ending afterwards. |
| SoeClient.KeyMapEscapes | serial_client_0.0.56_LinWin.py:332-362 | Every mapped key becomes an ESC sequence of 3 to 5 bytes. |
| SoeClient.ConvertWindowsKey | serial_client_0.0.56_LinWin.py:325-364 | Only a two-byte key starting with 0x00 or 0xE0 is converted, exactly when its code is mapped. Anything else is returned as it came. |
| SoeClient.ConvertIdempotent | serial_client_0.0.56_LinWin.py:325-364 | Converting twice is the same as converting once. |
| SoeClient.ConvertRecoverable | serial_client_0.0.56_LinWin.py:332-364 | The ANSI sequence determines the key code: distinct keys give distinct sequences. |
| SoeClient.Unquote | serial_client_0.0.56_LinWin.py:551-553 | A value in matching quotes loses exactly its two quote characters; any other value is unchanged. |
| SoeClient.ConvertValue | serial_client_0.0.56_LinWin.py:554-561 | true/yes/on/1 become True and false/no/off/0 become False, in any case. Other digit strings become integers. Anything else stays text. |
| SoeClient.ParseConfigLine | serial_client_0.0.56_LinWin.py:541-562 | A blank line, a `#` comment or a line without `=` is skipped. The key never contains `=`. |
| SoeClient.Put | serial_client_0.0.56_LinWin.py:562 | `config[key] = value` adds or overwrites that key only. |
| SoeClient.ReadConfig | serial_client_0.0.56_LinWin.py:535-569 | The reading loop computes `Config` of the lines. |
| SoeClient.FoldKeys | serial_client_0.0.56_LinWin.py:540-562 | A key is in the configuration exactly when some line defines it. |
| SoeClient.LastDefinitionWins | serial_client_0.0.56_LinWin.py:562 | The value kept is that of the last line defining the key. |
| SoeClient.ConfigMeaning | serial_client_0.0.56_LinWin.py:535-569 | The configuration holds exactly the keys some line defines, each with its last definition's value. |
| SoeClient.PlainLine | serial_client_0.0.56_LinWin.py:541-561 | `key=value` is read back as the key with the converted, unquoted value. |
| SoeClient.LineParts | serial_client_0.0.56_LinWin.py:547 | `split('=', 1)` gives back the key and the value. |
| SoeClient.NumberRoundTrip | serial_client_0.0.56_LinWin.py:554-561 | `key=<n>` reads back as the integer n, except that 1 and 0 become True and False. |
| SoeClient.ConvertNumber | serial_client_0.0.56_LinWin.py:554-561 | The decimal text of n converts to n, or to a boolean for 1 and 0. |
| SoeClient.DigitsNotWords | serial_client_0.0.56_LinWin.py:555-560 | No digit string other than "1" and "0" is a boolean word. |
| SoeClient.CloseAt | serial_client_0.0.56_LinWin.py:305 | The lazy `.*?#__` stops at the first `#__`, and only when no newline comes before it. |
| SoeClient.StripTokens | serial_client_0.0.56_LinWin.py:305 | Removing tokens never lengthens the text, and text without `__#` is unchanged. |
| SoeClient.TokenRemoved | serial_client_0.0.56_LinWin.py:305 | A complete token at the front is removed entirely and the rest is processed as it stands. |
| SoeClient.CloseAfterName | serial_client_0.0.56_LinWin.py:305 | A token's match ends right after its name. |
| SoeClient.RequestReplies | serial_client_0.0.56_LinWin.py:280-286 | The client version is sent exactly when GETVER is asked, and the keepalive exactly when GET_KA_TIMEOUT is asked. Nothing else is sent. |
| SoeClient.ServerVersionIn | serial_client_0.0.56_LinWin.py:288-291 | A version is read exactly when `SRV_VER_` occurs, and it holds no `#`. |
| SoeClient.RemoteParamsIn | serial_client_0.0.56_LinWin.py:299-303 | Parameters are read exactly when `__#COM_PARAMS_` occurs. They are stripped and hold no `#__`. |
| SoeClient.StripIdempotent | serial_client_0.0.56_LinWin.py:302 | Stripping twice is the same as stripping once. |
| SoeClient.ServerVersionRoundTrip | serial_client_0.0.56_LinWin.py:288-291 | The server's `__#SRV_VER_<v>#__` is read back as v. |
| SoeClient.RemoteParamsRoundTrip | serial_client_0.0.56_LinWin.py:299-303 | `__#COM_PARAMS_<p>#__` is read back as p stripped. |
| SoeClient.TokensOpen | serial_client_0.0.56_LinWin.py:277-297 | BADPWD, DISCONNECT and GETVER can only appear inside a chunk that carries `__#`. |
| SoeClient.ReceiveCounts | serial_client_0.0.56_LinWin.py:274-275 | The receive counter grows by the raw chunk length before any filtering. |
| SoeClient.ReceiveEnds | serial_client_0.0.56_LinWin.py:267-323 | The session ends exactly on an empty read, BADPWD or DISCONNECT, and then DISCONNECT is the last message sent. |
| SoeClient.ReceiveAnswersVersion | serial_client_0.0.56_LinWin.py:280-282 | The client version is sent exactly when the chunk asks GETVER. |
| SoeClient.ReceiveShows | serial_client_0.0.56_LinWin.py:305-316 | A chunk without `__#` is shown as it came. Otherwise the chunk is shown without its tokens, or nothing is shown when only whitespace remains. |
| SoeClient.ReceiveUpdates | serial_client_0.0.56_LinWin.py:288-303 | The server version and the remote parameters change only through their tokens. |
| SoeClient.SessionUpdates | serial_client_0.0.56_LinWin.py:288-303 | The server version or the remote parameters change only when the chunk opens a token and carries that field, and then they take the value read from it. |
| SoeClient.ReceiveAll | serial_client_0.0.56_LinWin.py:267-323 | Over a run of chunks the counter never decreases. |
| SoeClient.ReceiveAllStopped | serial_client_0.0.56_LinWin.py:268-323 | Nothing after the chunk that ends the session has any effect. |
| SoeClient.WinKeys | serial_client_0.0.56_LinWin.py:373-392 | Every key sent on Windows is non-empty. |
| SoeClient.WinKeysPlain | serial_client_0.0.56_LinWin.py:375-391 | Input without 0x00 or 0xE0 is sent byte by byte, unchanged. |
| SoeClient.Utf8Len | serial_client_0.0.56_LinWin.py:405 | A character encodes to 1 to 4 bytes, and to 1 exactly when it is ASCII. |
| SoeClient.PosixSentMeaning | serial_client_0.0.56_LinWin.py:396-405 | What is sent is the input up to the first Ctrl-C, and the thread stops exactly when a Ctrl-C occurs. |
| SoeClient.Utf8Size | serial_client_0.0.56_LinWin.py:405 | Encoding never shrinks the text. |
| SoeClient.Client.constructor | serial_client_0.0.56_LinWin.py:109-130 | The client starts with counters at 0, version `?.?.?` and parameters `?? ?? ??`, running. |
| SoeClient.Client.ReceiveThread | serial_client_0.0.56_LinWin.py:267-323 | The receive loop over the chunks has the effect of `ReceiveAll`, and sends nothing counted as typed. |
| SoeClient.Client.ReceiveNext | serial_client_0.0.56_LinWin.py:268-320 | One loop iteration extends `ReceiveAll` by one chunk. |
| SoeClient.Client.ReceiveStep | serial_client_0.0.56_LinWin.py:270-316 | One chunk has the effect of `ReceiveChunk`. |
| SoeClient.Client.SendWindows | serial_client_0.0.56_LinWin.py:373-392 | While running, the converted keys are sent in order and counted byte for byte; after a stop, nothing is sent. |
| SoeClient.Client.SendPosix | serial_client_0.0.56_LinWin.py:395-405 | The input up to the first Ctrl-C is sent character by character and counted in UTF-8 bytes. A Ctrl-C stops the client. |
| SoeClient.Client.SendUntilInterrupt | serial_client_0.0.56_LinWin.py:396-405 | The loop stops at the end of the input or at the first Ctrl-C, having sent exactly the characters before it. |
| SoeBridge.RunEnd | serial_bridge_0.0.70_LinWin.py:272 | A greedy `[class]*` run stops at the first character outside the class. |
| SoeBridge.LastDigit | serial_bridge_0.0.70_LinWin.py:272 | Backtracking into `[0-9;]*` ends at the last digit of the run. |
| SoeBridge.MatchLen | serial_bridge_0.0.70_LinWin.py:272-276 | A match never runs past the text. |
| SoeBridge.Sub | serial_bridge_0.0.70_LinWin.py:272-276 | `re.sub(p, b'', s)` never lengthens the text. |
| SoeBridge.SubNoMatch | serial_bridge_0.0.70_LinWin.py:272-276 | Where nothing matches, `re.sub` returns its input. |
| SoeBridge.DropLeadingBrackets | serial_bridge_0.0.70_LinWin.py:276 | `^\[+` removes exactly the leading run of `[`. |
| SoeBridge.KeepBytes | serial_bridge_0.0.70_LinWin.py:279 | Only bytes 32..126, TAB, LF and CR remain. |
| SoeBridge.KeepBytesExact | serial_bridge_0.0.70_LinWin.py:279 | The filter works byte by byte and keeps the order. |
| SoeBridge.KeepBytesKept | serial_bridge_0.0.70_LinWin.py:279 | Text made only of allowed bytes passes unchanged. |
| SoeBridge.StripAnsi | serial_bridge_0.0.70_LinWin.py:265-281 | The data-log text never grows and holds only allowed bytes. |
| SoeBridge.StripAnsiPlain | serial_bridge_0.0.70_LinWin.py:265-281 | Data without `[` loses only the bytes the filter forbids. |
| SoeBridge.StripAnsiSgr | serial_bridge_0.0.70_LinWin.py:265-281 | `ESC [ params m text` keeps exactly the text: the ESC and the bracket part are both gone. |
| SoeBridge.SgrPass | serial_bridge_0.0.70_LinWin.py:272 | The SGR pattern removes the bracket part and keeps the ESC. |
| SoeBridge.NoBracketNoMatch | serial_bridge_0.0.70_LinWin.py:272-276 | Every pattern of `_strip_ansi_codes` needs a `[`. |
| SoeBridge.ReplaceChar | serial_bridge_0.0.70_LinWin.py:291 | `replace` leaves text without the character unchanged. |
| SoeBridge.ReplaceCharConcat | serial_bridge_0.0.70_LinWin.py:291 | `replace` of one character works piece by piece. |
| SoeBridge.DropControls | serial_bridge_0.0.70_LinWin.py:295 | Only characters from space upward remain, and printable text is unchanged. |
| SoeBridge.Sanitize | serial_bridge_0.0.70_LinWin.py:283-297 | A log line shown on screen holds no control character. |
| SoeBridge.LayoutSteps | serial_bridge_0.0.70_LinWin.py:291-295 | The replace and filter steps act character by character: LF becomes a space, CR goes, TAB becomes four spaces, and other controls go. |
| SoeBridge.ShownOne | serial_bridge_0.0.70_LinWin.py:291-295 | For one character, the three replacements and the control filter give exactly what `Shown` says. |
| SoeBridge.LayoutPrintable | serial_bridge_0.0.70_LinWin.py:291-295 | The layout steps leave text made only of printable characters unchanged. |
| SoeBridge.SanitizePlain | serial_bridge_0.0.70_LinWin.py:283-297 | Text without ESC is laid out character by character. |
| SoeBridge.SanitizeIdempotent | serial_bridge_0.0.70_LinWin.py:283-297 | Sanitising twice is the same as sanitising once. |
| SoeBridge.SanitizePrintable | serial_bridge_0.0.70_LinWin.py:283-297 | Printable text is shown unchanged. |
| SoeBridge.ParseIntRoundTrip | serial_bridge_0.0.70_LinWin.py:756 | `int(f"{k}") == k` for every integer k. |
| SoeBridge.ParseDigits | serial_bridge_0.0.70_LinWin.py:756 | `int` of a digit string is its decimal value. |
| SoeBridge.ParseNegative | serial_bridge_0.0.70_LinWin.py:756 | `int("-" + d)` is minus the value of d. |
| SoeBridge.Rate | serial_bridge_0.0.70_LinWin.py:757-758 | The server keepalive is rated OK exactly when it exceeds the bridge's own; otherwise it is RISK. |
| SoeBridge.KaIn | serial_bridge_0.0.70_LinWin.py:754-759 | A report exists only for a chunk carrying `MY_KA_TIMEOUT_`. |
| SoeBridge.KaOnly | serial_bridge_0.0.70_LinWin.py:727-744 | A keepalive reply never looks like DISCONNECT or BADPWD, so it cannot end the loop. |
| SoeBridge.KaRoundTrip | serial_bridge_0.0.70_LinWin.py:754-759 | `__#MY_KA_TIMEOUT_<k>#__` is read back as k and rated. |
| SoeBridge.WithParams | serial_bridge_0.0.70_LinWin.py:769-775 | The serial side becomes ready exactly through `__#COM_PARAMS_`, and it stays ready. |
| SoeBridge.StepDisconnect | serial_bridge_0.0.70_LinWin.py:727-736 | An empty read or a DISCONNECT anywhere in the chunk ends the loop before anything else, with nothing sent or forwarded. |
| SoeBridge.StepBadPwd | serial_bridge_0.0.70_LinWin.py:743-744 | A rejected password ends the loop and changes nothing. |
| SoeBridge.StepForward | serial_bridge_0.0.70_LinWin.py:782-797 | Every other chunk continues the loop. Once the serial side is ready, what is forwarded is the chunk, without its tokens when it has `__#`. |
| SoeBridge.StepGate | serial_bridge_0.0.70_LinWin.py:785 | Nothing reaches the serial side before it is ready. |
| SoeBridge.StepReady | serial_bridge_0.0.70_LinWin.py:769-775 | Readiness comes only from COM_PARAMS, and a COM_PARAMS chunk always brings it and ends the wait for parameters. |
| SoeBridge.StepReplies | serial_bridge_0.0.70_LinWin.py:745-780 | The bridge identifies itself exactly on GETVER. It sends its parameters exactly when a token chunk announces the server version, or asks ASK without GETVER. |
| SoeBridge.StepKeepalive | serial_bridge_0.0.70_LinWin.py:754-758 | A keepalive reply of k is rated OK exactly when k exceeds the bridge's keepalive. |
| SoeBridge.StepKeepsReady | serial_bridge_0.0.70_LinWin.py:773 | Once ready, the serial side stays ready. |
| SoeBridge.TokensOnlyDropped | serial_bridge_0.0.70_LinWin.py:782-783 | A chunk made only of tokens is removed entirely, and then nothing is forwarded. |
| SoeBridge.TokenMatch | serial_bridge_0.0.70_LinWin.py:782 | `__#[^#]*#__` removes a whole token at the front. |
| SoeBridge.ValidateArgsAccepts | serial_bridge_0.0.70_LinWin.py:980-1006 | The check passes exactly when host, port and a serial side are given (or `--ask` with host and port), security has a password, and a named pipe is used only on Windows with pywin32. |
| SoeBridge.ValidateArgsAddressFirst | serial_bridge_0.0.70_LinWin.py:986-994 | A missing host or port is reported first, as the `--ask` error when asking. |
| SoeBridge.HexPairs | serial_bridge_0.0.70_LinWin.py:555-556 | The hex view has 3n-1 characters for n bytes. |
| SoeBridge.UnHexPairs | serial_bridge_0.0.70_LinWin.py:555-556 | The space-separated hex pairs read back as the bytes. |
| SoeBridge.HexPairsPrintable | serial_bridge_0.0.70_LinWin.py:555-556 | The hex view holds only spaces, digits and `a`-`f`. |
| SoeBridge.HexMessagePrintable | serial_bridge_0.0.70_LinWin.py:557 | The hex transfer message is printable. |
| SoeBridge.LogEntry | serial_bridge_0.0.70_LinWin.py:509-526 | A debug message is logged only in debug mode. A log line starts with the time stamp, and the rest is printable. |
| SoeBridge.LogTailPrintable | serial_bridge_0.0.70_LinWin.py:519-521 | The debug tag and a sanitised message form printable text. |
| SoeBridge.TransferEntryHex | serial_bridge_0.0.70_LinWin.py:546-570 | An enabled hex transfer entry shows the data as hex pairs that read back as the data. |
| SoeBridge.HandshakeMsgs | serial_bridge_0.0.70_LinWin.py:698-708 | The handshake starts with BR_VER and ends with ASK. The password is sent exactly when the link is secured and a password is set. |
| SoeBridge.PushBoundedCap | serial_bridge_0.0.70_LinWin.py:537-538 | The log and transfer buffers never exceed their line limits. |
| SoeBridge.Bridge.constructor | serial_bridge_0.0.70_LinWin.py:196-237 | The bridge starts running and not ready, with unknown parameters and version, counters at 0, empty buffers and the parsed transfer modes. |
| SoeBridge.Bridge.Handshake | serial_bridge_0.0.70_LinWin.py:698-708 | The handshake messages are sent in order and the bridge starts waiting for parameters. |
| SoeBridge.Bridge.CountData | serial_bridge_0.0.70_LinWin.py:454-456 | "IN" counts incoming bytes and any other direction counts outgoing bytes. |
| SoeBridge.Bridge.Log | serial_bridge_0.0.70_LinWin.py:509-538 | The log buffer receives `LogEntry` bounded by its limit, or is unchanged for a suppressed debug line. |
| SoeBridge.Bridge.LogTransfer | serial_bridge_0.0.70_LinWin.py:546-570 | The transfer buffer receives the entry when the direction is shown, bounded by its limit. |
| SoeBridge.Bridge.ReceiveChunk | serial_bridge_0.0.70_LinWin.py:724-803 | One receive pass has the effect of `Step`. |
| SoeBridge.Bridge.Apply | serial_bridge_0.0.70_LinWin.py:785-801 | Forwarded data is written to the serial side, counted OUT and logged. |
| SoeBridge.Bridge.SerialRead | serial_bridge_0.0.70_LinWin.py:912-918 | Non-empty serial data is sent to the server, counted IN and logged. Empty data does nothing. |
| SoeBridge.Bridge.SignalHandler | serial_bridge_0.0.70_LinWin.py:434-452 | Ctrl-C stops the loops and sends DISCONNECT to a connected server. |
| SoeServer.IdentifyPart | serial_server_0.0.53_LinWin.py:951-958 | A piece naming a program identifies it without touching held data or parameters. |
| SoeServer.Identify | serial_server_0.0.53_LinWin.py:950-958 | The identification loop keeps held data and parameters. |
| SoeServer.IdentifyAuthorizes | serial_server_0.0.53_LinWin.py:950-958 | Identification authorises exactly when no password is set and some piece names a program, or when the session was already authorised. |
| SoeServer.IdentifyNone | serial_server_0.0.53_LinWin.py:950-951 | Pieces that name no program change nothing and send nothing. |
| SoeServer.IdentifyChunk | serial_server_0.0.53_LinWin.py:948-959 | The `_VER_` branch keeps held data and the remote parameters. |
| SoeServer.IdentifyReplies | serial_server_0.0.53_LinWin.py:956-958 | Identification sends only the serial parameters and ASK. |
| SoeServer.WithRemoteParams | serial_server_0.0.53_LinWin.py:967-972 | A bridge's COM_PARAMS reply changes only the remote parameters. |
| SoeServer.CheckPassword | serial_server_0.0.53_LinWin.py:974-983 | The password check never touches held data. |
| SoeServer.TokenChunk | serial_server_0.0.53_LinWin.py:945-984 | A token chunk is never forwarded and keeps held data. |
| SoeServer.StepForward | serial_server_0.0.53_LinWin.py:985-997 | Only plain data from an authorised session, or a session with no password, reaches the serial side. It holds no token, and nothing is sent back. |
| SoeServer.StepForwardPlain | serial_server_0.0.53_LinWin.py:992-997 | Such data is always forwarded in full. |
| SoeServer.StepHolds | serial_server_0.0.53_LinWin.py:936-943 | 0.0.53 holds a chunk that opens a token without closing it, and holds short unauthorised data. |
| SoeServer.StepHeld | serial_server_0.0.53_LinWin.py:930-943 | What is held is exactly the old held text plus the new chunk. 0.0.52b never holds anything. |
| SoeServer.StepRejects | serial_server_0.0.53_LinWin.py:986-991 | Unauthorised plain data ends the session: in 0.0.53 once the held text and chunk together reach 20 bytes; in 0.0.52b (lines 701-703 of its own file) it ends the session at once. |
| SoeServer.StepReplies | serial_server_0.0.53_LinWin.py:960-964 | The version and keepalive replies are sent exactly when requested, ASK always gets the parameters, and nothing is forwarded; 0.0.52b does the same at lines 676-680 of its own file. |
| SoeServer.StepTokens | serial_server_0.0.53_LinWin.py:940-984 | A complete token chunk is handled by `TokenChunk`. |
| SoeServer.TokenChunkReplies | serial_server_0.0.53_LinWin.py:946-984 | Within a token chunk, the version and keepalive replies correspond exactly to their requests. |
| SoeServer.AnswersMembers | serial_server_0.0.53_LinWin.py:960-964 | The fixed replies correspond exactly to their requests. |
| SoeServer.StepPassword | serial_server_0.0.53_LinWin.py:974-983 | The right password authorises, and a bridge then gets the parameters and ASK. Any other password gets BADPWD and ends the session; 0.0.52b does the same at lines 690-699 of its own file. |
| SoeServer.StepDisconnect | serial_server_0.0.53_LinWin.py:984 | DISCONNECT ends the session. |
| SoeServer.PasswordRoundTrip | serial_server_0.0.53_LinWin.py:976 | `__#PWD_<p>#__` is read back as p when p holds neither `_` nor `#`. |
| SoeServer.NonEmpty | serial_server_0.0.53_LinWin.py:507-512 | Only non-empty reads are relayed. |
| SoeServer.NonEmptyTotal | serial_server_0.0.53_LinWin.py:507-508 | Dropping empty reads loses no bytes. |
| SoeServer.Server.constructor | serial_server_0.0.53_LinWin.py:899-903 | The server starts running with no client, zero counters and nothing sent. |
| SoeServer.Server.Accept | serial_server_0.0.53_LinWin.py:900-926 | A new session is counted and reset. GETVER and GET_KA_TIMEOUT are sent, and the session is authorised exactly when no password is set. |
| SoeServer.Server.IdentifyParts | serial_server_0.0.53_LinWin.py:950-958 | The `for part` loop has the effect of `Identify`. |
| SoeServer.Server.IdentifyOne | serial_server_0.0.53_LinWin.py:951-958 | One piece has the effect of `IdentifyPart`. |
| SoeServer.Server.HandleTokens | serial_server_0.0.53_LinWin.py:945-984 | A token chunk has the effect of `TokenChunk`. |
| SoeServer.Server.IdentifyIn | serial_server_0.0.53_LinWin.py:948-959 | The `_VER_` branch has the effect of `IdentifyChunk`. |
| SoeServer.Server.ReadRemoteParams | serial_server_0.0.53_LinWin.py:967-972 | Reading COM_PARAMS has the effect of `WithRemoteParams`. |
| SoeServer.Server.SendAnswers | serial_server_0.0.53_LinWin.py:960-964 | The replies to GETVER, GET_KA_TIMEOUT and ASK are sent in that order. |
| SoeServer.Server.CheckPwd | serial_server_0.0.53_LinWin.py:974-983 | The password branch has the effect of `CheckPassword`. |
| SoeServer.Server.ReceiveChunk | serial_server_0.0.53_LinWin.py:931-998 | One receive pass has the effect of `Step`. The IN totals count exactly what was written to the serial side. |
| SoeServer.Server.DispatchText | serial_server_0.0.53_LinWin.py:940-997 | The body after the held text is prepended has the effect of `Dispatch`. |
| SoeServer.Server.WriteSerial | serial_server_0.0.53_LinWin.py:993-997 | Plain data is counted in both IN counters and written. |
| SoeServer.Server.SerialToSocket | serial_server_0.0.53_LinWin.py:503-512 | While authorised, every non-empty read is relayed and counted. Before authorisation nothing is relayed. |
| SoeServer.Server.Relay | serial_server_0.0.53_LinWin.py:507-512 | One read is relayed and counted in both OUT counters when it is non-empty. |
| SoeServer.Server.HandleSigint | serial_server_0.0.53_LinWin.py:488-496 | With a client, Ctrl-C requests a soft disconnect; without one, it stops the server; 0.0.52b does the same at lines 378-386 of its own file. |
| SoeServer.Server.EndSession | serial_server_0.0.53_LinWin.py:1004-1010 | DISCONNECT is sent exactly when a soft disconnect was requested, and the client becomes inactive. |
| SoeServerArgs.LineError | serial_server_0.0.53_LinWin.py:600-623 | A line setting passes only when it has four characters. |
| SoeServerArgs.LineErrorOk | serial_server_0.0.53_LinWin.py:600-623 | The line checks pass exactly for data bits 5-8, parity N/O/E/M/S, stop bits 1/2 and flow N/X/H/R. |
| SoeServerArgs.ValidateArgsAccepts | serial_server_0.0.53_LinWin.py:556-681 | `validate_args` passes exactly when the configuration meets every rule. |
| SoeServerArgs.LineReportedFirst | serial_server_0.0.53_LinWin.py:593-602 | The rules are checked in order: with the earlier rules met, a wrong line length is the error reported, whatever else is wrong. |
| SoeServerArgs.ShowTransferForm | serial_server_0.0.53_LinWin.py:662-674 | `<format>,<direction>` is accepted exactly when both parts are known in any case. |
| SoeInterop.ServerKaReachesBridge | serial_bridge_0.0.70_LinWin.py:754-758 | The server's `MY_KA_TIMEOUT` reply is read by the bridge as the configured keepalive and rated. |
| SoeInterop.BridgePasswordAccepted | serial_server_0.0.53_LinWin.py:974-981 | The bridge's password token authorises it at a server with the same password, and the server answers only with what a bridge is owed. |

## Left out

- Sockets, `select`, TLS wrapping and certificate loading. Each chunk a `recv` returns is an input to the model.
- Threads and their interleaving. This covers:
  - the keepalive threads;
  - the server's `serial_to_socket` thread racing with authorisation;
  - the emulator's worker and TUI threads;
  - the bridge's keyboard thread.

  Each thread's loop is modelled on its own.
- Named pipes, PTYs, overlapped I/O and modem-status polling (DSR/CD/CTS). Serial I/O is a stream of chunks.
- Screen rendering: the TUI layout, scrolling, colours, resize handling and status lines. What is kept is the text of the log and transfer buffers and the counters.
- Log files, log rotation and the bridge's data log file. `_strip_ansi_codes` is modelled; the file writes are not.
- Undecodable UTF-8. A chunk is a string of byte-valued characters and `decode` is the identity on it.
- `--ask` and `get_server_info_full_handshake`, the one-shot query mode.
- argparse, the configuration-file merging of the bridge and the servers, and opening files. The client's `read_config_file` is modelled on its lines.
- Shell command execution, `show version` and `show clock`. They depend on the host and the clock, so they are a `Host` parameter.
- Console.StopBitsAccepted: `float()` is modelled only for plain decimal spellings. Python's `float` also accepts underscores between digits and exponents, so the source accepts stop-bit parts such as `0_1`, `1.5_0` or `1e0` (for example the format `8N0_1`). `ValidateLineFormat` refuses them.
- SoeServerArgs.ValidateArgsAccepts: `inet_aton`'s verdict is the parameter `addressOk`, and the `isinstance` checks are assumed to pass. argparse already gives these options their types.
- SoeBridge.ValidateArgsAccepts: pywin32 availability and the platform are parameters.
- SoeBridge.ParseIntRoundTrip: Python's `int()` is modelled without underscores between digits.
- `_detect_client_type` of the emulator and the server's configuration reload (`reload_requested`). Both are outside the session logic.
- SoeServer.Server: the session fields are one `Session` value. In the source they live in global state, in the flag dictionary shared with the serial reader, and in a local buffer.
- SoeServer.StepHolds: the 0.0.53 fragment buffer is unbounded, as in the code (serial_server_0.0.53_LinWin.py:936-943). A chunk that opens `__#` but never closes it keeps growing the buffer.
- The emulator's help, `show running-config` and `show startup-config` texts are opaque `Texts` values. Only who may produce them is modelled.
- SerialEmu.Receive: the echo of typed characters is modelled as written, but the TUI per-byte counter calls are not.
- SoeClient.ReceiveEnds: called from the receive thread, `shutdown` raises `SystemExit`, which passes `except Exception` and ends only that thread. The model marks the session as ended and stops the receive loop. When both BADPWD and DISCONNECT are in one chunk, `shutdown` is modelled once.
- The client's echo to the local terminal and its status line.
- SoeClient.Client.SendPosix: the outbox receives each typed character itself rather than its UTF-8 bytes. A non-ASCII key therefore appears as one character, not as 2 to 4 byte-valued characters; the byte count does use the UTF-8 length (`Utf8Len`).
