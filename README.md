# UART signal generator — a verified Dafny model

The system is a text-line protocol for a PWM signal generator.

- A Python host builds commands (`FREQ <Hz>`, `DUTY <percent>`, `ON`, `OFF`, `?`, `VER?`) and sends each one stripped and followed by a newline. It recognises the device's replies: status lines, `OK ` / `ERR ` replies and the `UART-GEN` signature.
- Two firmwares read the serial line character by character into a 64-byte buffer. They cut it into lines at CR, at LF or when 63 characters wait, and answer each line. The ESP-IDF one is `uart_task` and `process_line`, driving the LEDC generator of `generator.c`. The Arduino one is `loop()` and `processLine`, with its own statics.
- `cmd_parse.c` is a host-testable parser of the same command language. It returns 0 / -1 / -2 and fills an out-record.

The model follows the sources file by file.

| module | models | form |
|---|---|---|
| `Protocol` (protocol.dfy) | `gui/protocol.py` | pure functions |
| `CmdParse` (cmd_parse.dfy) | `src/cmd_parse.c` | mixed |
| `Generator` (generator.dfy) | `src/generator.c` | mixed |
| `UartCmd` (uart_cmd.dfy) | `src/uart_cmd.c` | mixed |
| `Arduino` (arduino.dfy) | `src/main_arduino.cpp` | mixed |
| `Framing` (framing.dfy) | the character loop both firmwares share | pure |
| `Replies` (replies.dfy) | the reply texts both firmwares share | pure |
| `Pwm` (pwm.dfy) | the duty arithmetic of `apply_output` / `applyOutput` | pure |
| `CText` (ctext.dfy) | the C library behaviour the firmware relies on | mixed |
| `Numerals` (numerals.dfy) | decimal digits and values | pure |
| `Interop` (interop.dfy) | properties that cross the host / firmware boundary | lemmas |
| `Wrappers` (wrappers.dfy) | `Option` | pure |

How the forms work out in each module:

- `CmdParse`: the copy loop and `trim` (its backward scan and its `memmove`) are methods over an `array<char>`. The keyword and number classification is a pure function. `cmd_parse` is a method that writes a `CmdResult` object.
- `Generator`: the four statics of `generator.c` are the fields of the class `PwmGenerator`. Each of its methods is proved against a pure transition function (`InitResult`, `SetFreqResult`, …).
- `UartCmd` and `Arduino`:
  - Each firmware is a class that holds the line buffer (an `array<char>`), its length, the generator state and the replies written so far.
  - Each class has a method per C function and per loop body.
  - The class methods are proved against pure functions: `Dispatch` / `Respond` (one line), `Framing.Frame` (a whole input) and `Run` (a batch of lines).

Where the C library is involved, `CText` models it:

- `strtoul(…, 0)` has a 32-bit `unsigned long`, as on the ESP32 (see "## Left out" for the host build of `cmd_parse.c`). The model covers leading C white space, an optional sign, `0x` hexadecimal, leading-`0` octal, saturation at `ULONG_MAX`, negation modulo 2^32 for a `-` sign, and the end pointer.
- `strlen` stops at the first NUL. `CStr` is the string up to the first NUL.
- `memmove` is `MoveDown`.

`Interop` proves the following across the host / firmware boundary:

- Every status reply of either firmware is parsed back to the same values by the host.
- Every reply other than identification, status and HELP is classified by exactly one of `is_ok_response` and `is_err_response`.
- The Arduino identification reply carries the signature. The ESP-IDF firmware answers `VER?` with its unknown-command error, which does not carry the signature.
- Each host command, sent with its newline, is framed as one line. Both firmwares carry out `FREQ`, `DUTY`, `ON`, `OFF` and `?` with the host's values (`EspExecutesFreq`, `EspExecutesDuty`, `EspExecutesOn`, `EspExecutesOff`, `EspAnswersStatus` and their `Arduino…` counterparts). Only the Arduino one answers `VER?` with its identification (`ArduinoAnswersId`, `EspRefusesId`).

Two details of the code that the model keeps as written:

- The status pattern is `FREQ=\d+\s+DUTY=\d+\s+(ON|OFF)` (gui/protocol.py:18): any non-empty run of white space between the fields, although the docstring's example (gui/protocol.py:59) shows single spaces.
- The Arduino firmware removes only leading spaces (src/main_arduino.cpp:60). A command with trailing spaces is therefore unknown there. The host never sends one, because it strips every command (gui/generator_gui.py:297).

## Model

| member | source | states |
|---|---|---|
| Numerals.DigitVal | src/cmd_parse.c:64 | a digit's value is below 10 exactly for the characters 0-9, and at most 36 for any character |
| Numerals.Dec | gui/protocol.py:25 | the decimal rendering of n is non-empty, all digits, has value n, and starts with 0 only for n = 0 |
| Numerals.DecLength | src/uart_cmd.c:69-70 | a number below 10^k has at most k decimal digits |
| Numerals.DigitsEndRun | src/cmd_parse.c:64 | strtoul's digit scan covers only digits of the base and stops at the first non-digit |
| CText.CStr | src/uart_cmd.c:29 | the C string is the longest NUL-free prefix; it is followed by a NUL when shorter than the buffer |
| CText.TrimTrailing | src/cmd_parse.c:12-14 | only trailing CR, LF and spaces are removed, all of them, and what remains is a prefix |
| CText.SkipSpaces | src/cmd_parse.c:15-17 | only leading spaces are skipped, all of them, and what remains is a suffix |
| CText.Trimmed | src/cmd_parse.c:10-23 | the trimmed text starts with no space and ends with no CR, LF or space |
| CText.TrimTrailingJunk | src/cmd_parse.c:12-13 | CR, LF and spaces appended to a line do not change its trailing trim |
| CText.SkipSpacesLead | src/cmd_parse.c:16-17 | spaces put before a word do not change what the leading skip leaves |
| CText.TrimmedPadded | src/cmd_parse.c:10-23 | a core padded with leading spaces and trailing CR/LF/spaces trims back to the core |
| CText.TrimmedTrail | src/uart_cmd.c:29-34 | a core followed by CR, LF and spaces trims back to the core |
| CText.TrimmedCore | src/uart_cmd.c:29-34 | an already trimmed core is unchanged by the trim |
| CText.TrimmedBlank | src/cmd_parse.c:37-38 | the trim is empty exactly when every character is a CR, LF or space |
| CText.SkipCSpace | src/cmd_parse.c:64 | strtoul skips exactly the leading C white space |
| CText.ScanSubject | src/cmd_parse.c:64 | base 0 picks base 16 only after 0x/0X, base 8 only at a leading 0, base 10 otherwise |
| CText.Wrap | src/cmd_parse.c:64 | the result fits in 32 bits; without a sign an overflowing value saturates at ULONG_MAX |
| CText.StrToUL | src/cmd_parse.c:64 | the value fits in 32 bits, the end stays in the string, a failed conversion gives 0 at the start, and the end follows a digit |
| CText.StrToULZero | src/cmd_parse.c:64 | a 0 not followed by an octal digit or a complete hex prefix converts to 0 and ends right after it |
| CText.StrToULNonZero | src/cmd_parse.c:64 | the decimal digits of n > 0 after white space convert to n (saturated) and end after the digits |
| CText.StrToULAt | src/uart_cmd.c:62 | the decimal rendering of any n, after white space, converts to n (saturated) and ends after its digits |
| CText.StrToULDecimal | src/cmd_parse.c:64-65 | white space, Dec(n) and any non-digit text convert to n (saturated), ending after the digits |
| CText.DecValue | src/main_arduino.cpp:94 | Dec(n) followed by any non-digit text has value n (saturated) |
| CText.StrToULNegative | src/cmd_parse.c:64 | "-v" converts to 2^32 - v for 0 < v <= ULONG_MAX |
| CText.StrToULNoDigits | src/cmd_parse.c:64-67 | white space and a sign with no digit after them convert to 0 with the end at the start |
| CText.StrToULHex | src/cmd_parse.c:64 | "0x1F" converts to 31 over four characters |
| CText.StrToULOctal | src/cmd_parse.c:64 | "010" converts to 8 |
| CText.StrToULBareZero | src/cmd_parse.c:64 | "0x" and "09" convert to 0 and end after the 0 |
| CText.StrToULPlus | src/cmd_parse.c:64 | "+7" converts to 7 |
| CText.StrLen | src/uart_cmd.c:29 | strlen returns the index of the first NUL |
| CText.MoveDown | src/cmd_parse.c:20 | memmove to the front copies the count characters and leaves the rest of the buffer as it was |
| CText.LeadingEnd | src/uart_cmd.c:33-34 | the pointer stops after the leading spaces: the text from it is the leading skip of the line |
| CText.CStrIs | src/uart_cmd.c:29 | a buffer whose first NUL is at n has the first n characters as its C string |
| Protocol.BuildFreqCmd | gui/protocol.py:21-25 | succeeds exactly for 1..40000000 and then gives "FREQ " and the digits of hz, without a leading zero |
| Protocol.BuildDutyCmd | gui/protocol.py:28-32 | succeeds exactly for 0..100 and then gives "DUTY " and the digits of percent, with a leading zero only for 0 |
| Protocol.BuildOnCmd | gui/protocol.py:35-36 | (no contract of its own) the constant "ON"; Interop.HostOnParsed proves the firmware takes it as ON |
| Protocol.BuildOffCmd | gui/protocol.py:39-40 | (no contract of its own) the constant "OFF"; Interop.HostOffParsed proves the firmware takes it as OFF |
| Protocol.BuildStatusCmd | gui/protocol.py:43-44 | (no contract of its own) the constant "?"; Interop.HostStatusParsed proves the firmware takes it as a status query |
| Protocol.BuildIdCmd | gui/protocol.py:47-49 | (no contract of its own) the constant "VER?"; Interop.ArduinoIdentifies and Interop.EspRefusesId give the two firmwares' answers |
| Protocol.StartsAtIndex | gui/protocol.py:74 | a word starts at a position exactly when its characters are there one by one |
| Protocol.ContainsFromIff | gui/protocol.py:54 | the substring search from i succeeds exactly when the pattern occurs at some j >= i |
| Protocol.IsOurGeneratorResponse | gui/protocol.py:52-54 | true exactly when "UART-GEN" occurs somewhere in the text |
| Protocol.StripEnd | gui/protocol.py:62 | removes all trailing white space and nothing else |
| Protocol.StripStart | gui/protocol.py:62 | removes all leading white space and nothing else |
| Protocol.Strip | gui/protocol.py:62 | the stripped text neither starts nor ends with white space |
| Protocol.StripPadded | gui/protocol.py:62 | white space around a core strips back to the core |
| Protocol.StripTrail | gui/protocol.py:74 | white space after a core strips back to the core |
| Protocol.MatchAt | gui/protocol.py:18 | (no contract of its own) the regular expression tried at one position; MatchAtIff characterises it |
| Protocol.SearchFrom | gui/protocol.py:63 | (no contract of its own) re.search from a position; SearchFromLeftmost and SearchFromFinds characterise it |
| Protocol.ParseStatusLine | gui/protocol.py:57-70 | (no contract of its own) parse_status_line; ParseStatusLineSound, ParseStatusLineComplete and StatusLineRoundTrip state what it returns |
| Protocol.MatchTailSound | gui/protocol.py:18 | a match of the DUTY part is a well-formed instance of the pattern that occurs in the text |
| Protocol.MatchTailComplete | gui/protocol.py:18 | every well-formed DUTY part in the text is found, with its maximal digit and space runs |
| Protocol.MatchAtSound | gui/protocol.py:18 | a status match at i is a well-formed instance of the pattern occurring at i |
| Protocol.MatchAtComplete | gui/protocol.py:18 | every well-formed status text at i is found there |
| Protocol.MatchAtIff | gui/protocol.py:18 | the match at i is m exactly when m is well formed and its text occurs at i |
| Protocol.SearchFromLeftmost | gui/protocol.py:63 | the search reports the match at the leftmost position that has one |
| Protocol.SearchFromFinds | gui/protocol.py:63 | if the pattern occurs at or after i, the search finds a match |
| Protocol.NoTextBefore | gui/protocol.py:63 | before the reported position no well-formed status text occurs |
| Protocol.ParseStatusLineSound | gui/protocol.py:57-70 | a parsed record comes from the leftmost well-formed match in the stripped line, with on exactly for "ON" |
| Protocol.ParseStatusLineComplete | gui/protocol.py:57-65 | a stripped line holding a well-formed status text always parses |
| Protocol.TextHasDuty | gui/protocol.py:18 | every status text contains "DUTY=" after the frequency digits and white space |
| Protocol.NoDutyNoStatus | gui/protocol.py:64-65 | a line in which "DUTY=" never occurs parses to None |
| Protocol.StatusReportText | src/uart_cmd.c:40-44 | the firmware's status text is an instance of the pattern with single spaces |
| Protocol.StatusReportMatches | gui/protocol.py:18 | the status pattern matches the firmware's status text at its start with exactly its digits |
| Protocol.StatusReportEnds | gui/protocol.py:62 | the status text neither starts nor ends with white space |
| Protocol.StatusLineRoundTrip | gui/protocol.py:57-70 | white space, the status text and white space parse to exactly the reported frequency, duty and on flag |
| Protocol.OkErrExclusive | gui/protocol.py:73-78 | no line is both an OK and an ERR response |
| Protocol.IsOkResponse | gui/protocol.py:73-74 | (no contract of its own) the stripped line starts with "OK "; OkErrExclusive and Interop.OkLine relate it to the replies |
| Protocol.IsErrResponse | gui/protocol.py:77-78 | (no contract of its own) the stripped line starts with "ERR "; OkErrExclusive and Interop.ErrLine relate it to the replies |
| CmdParse.Code | include/cmd_parse.h:34-41 | the return code is 0 for an accepted line, -1 for an unknown one and -2 for an out-of-range value |
| CmdParse.PrefixUpTo | src/cmd_parse.c:32-35 | the copy stops at a NUL, CR or LF or when the room is used up, and copies none of those characters |
| CmdParse.Examined | src/cmd_parse.c:30-36 | (no contract of its own) PrefixUpTo with room 63; ExaminedIs and ExaminedCovers state what it holds |
| CmdParse.ExaminedIs | src/cmd_parse.c:30-36 | the examined part of a line is its stop-free prefix of at most 63 characters, when the stop or the end follows it |
| CmdParse.ExaminedCovers | src/cmd_parse.c:30-36 | a stop-free prefix of at most 63 characters is contained in what is examined |
| CmdParse.SpacesEnd | src/cmd_parse.c:65 | the end pointer skips exactly the spaces after the number |
| CmdParse.Argument | src/cmd_parse.c:64-67 | an argument is accepted exactly when nothing but spaces follows the number strtoul reads, and then with strtoul's value, at most ULONG_MAX |
| CmdParse.Keyword | src/cmd_parse.c:45-60 | recognises exactly ?, STATUS, ON, START, OFF, STOP and HELP: ?/STATUS as status, ON/START as on, OFF/STOP as off |
| CmdParse.FreqVerdict | src/cmd_parse.c:66-72 | an accepted FREQ carries a frequency in 1..40000000 |
| CmdParse.DutyVerdict | src/cmd_parse.c:79-85 | an accepted DUTY carries a duty of at most 100 |
| CmdParse.Classify | src/cmd_parse.c:38-88 | no command exactly for the empty text; accepted values are in range; -2 only for FREQ or DUTY lines |
| CmdParse.ParseCommand | src/cmd_parse.c:25-89 | (no contract of its own) cmd_parse's verdict on a line: the examined part, trimmed and classified; CmdParse.Parse is proved to return its code |
| CmdParse.CopyLine | src/cmd_parse.c:30-36 | the local buffer holds exactly the examined prefix, NUL-terminated, and its index stays at most 63 |
| CmdParse.TrailingEnd | src/cmd_parse.c:12-13 | the length shrinks to the trailing trim of the buffer |
| CmdParse.ShiftToFront | src/cmd_parse.c:18-22 | the text after the leading spaces moves to the front with its NUL, and the length becomes its length |
| CmdParse.Trim | src/cmd_parse.c:10-23 | trim leaves exactly the trimmed text, NUL-terminated, at the front of the buffer |
| CmdParse.CmdResult.constructor | include/cmd_parse.h:24-28 | the out-record holds the given type, frequency and duty |
| CmdParse.Store | src/cmd_parse.c:39-85 | success writes the type and, for FREQ or DUTY, only the matching field |
| CmdParse.Parse | src/cmd_parse.c:25-89 | the result is 0, -1 or -2; a missing argument gives -1; otherwise it is the code of the classified line, the out-record is untouched on failure and written on success |
| CmdParse.ParsePadded | src/cmd_parse.c:10-23 | a core padded with leading spaces and trailing CR/LF/spaces classifies as the core |
| CmdParse.ParseTrail | src/cmd_parse.c:32-37 | a short core followed by a line ending and anything after it classifies as the core |
| CmdParse.BlankLine | src/cmd_parse.c:37-41 | the result is "no command" exactly when the examined part is only CR, LF and spaces |
| CmdParse.BlankExamples | src/cmd_parse.c:37-41 | the empty line and "  \r\n" are no command |
| CmdParse.Keywords | src/cmd_parse.c:45-60 | ?/STATUS, ON/START, OFF/STOP and HELP map to their commands |
| CmdParse.PaddedStatus | src/cmd_parse.c:10-23 | "  ?  " is the status command |
| CmdParse.ArgumentDec | src/cmd_parse.c:64-67 | a decimal number alone is accepted with its value, saturated at ULONG_MAX |
| CmdParse.ArgumentRejects | src/cmd_parse.c:66-67 | an argument with a non-space character after the number is rejected |
| CmdParse.DecThenSpace | src/cmd_parse.c:64 | the number's end pointer stops at the space after its digits |
| CmdParse.ArgumentTrailingWord | src/cmd_parse.c:65-67 | a number followed by a space and a word is rejected |
| CmdParse.ArgumentJunk | src/cmd_parse.c:64-67 | a number followed at once by anything but a space, digit or x is rejected |
| CmdParse.ClassifyFreq | src/cmd_parse.c:62-73 | a FREQ line is judged on its argument alone |
| CmdParse.ClassifyDuty | src/cmd_parse.c:75-86 | a DUTY line is judged on its argument alone |
| CmdParse.FreqDecimal | src/cmd_parse.c:62-73 | FREQ n is accepted with n exactly for 1..40000000 and -2 otherwise |
| CmdParse.DutyDecimal | src/cmd_parse.c:75-86 | DUTY n is accepted with n exactly for n <= 100 and -2 otherwise |
| CmdParse.FreqTrailingWord | src/cmd_parse.c:66-67 | FREQ n followed by a word is unknown (-1) |
| CmdParse.FreqJunk | src/cmd_parse.c:62-67 | FREQ n with a unit or other text glued to the number, as in FREQ 1000Hz, is unknown (-1) |
| CmdParse.DutyTrailingWord | src/cmd_parse.c:79-80 | DUTY n followed by a word is unknown (-1) |
| CmdParse.BareWords | src/cmd_parse.c:62-88 | bare FREQ, bare DUTY and other words are unknown |
| CmdParse.ArgumentNegative | src/cmd_parse.c:64-67 | "-v" is accepted as 2^32 - v |
| CmdParse.FreqNegative | src/cmd_parse.c:62-73 | FREQ -v is judged as the frequency 2^32 - v |
| CmdParse.FreqMinusUlongMax | src/cmd_parse.c:62-73 | "FREQ -4294967295" is accepted as 1 Hz |
| Pwm.DutyToLedc | src/generator.c:32-33 | the hardware duty never exceeds 1023 and reaches it exactly from 100 % up |
| Pwm.ProductFits | src/generator.c:32 | percent * 1024 does not overflow 32 bits for any 8-bit percent |
| Pwm.DutyBelowFull | src/generator.c:32 | below the cap, the duty is percent * 1024 / 100 rounded down |
| Pwm.DutyMonotone | src/main_arduino.cpp:50-51 | a larger percent never gives a smaller hardware duty |
| Pwm.DutyPoints | src/main_arduino.cpp:50-51 | 0 %, 50 % and 100 % give 0, 512 and 1023 |
| Generator.Applied | src/generator.c:24-36 | apply_output only writes the hardware duty; nothing before init, 0 when stopped, the computed duty when running |
| Generator.InitResult | src/generator.c:38-70 | a second init returns 0 and changes nothing; a first init succeeds exactly when both configs do and then sets the defaults; a failure returns the error and leaves the state |
| Generator.SetFreqResult | src/generator.c:72-81 | -1 before init, -2 outside 1..40000000, else the hardware result unchanged; 0 exactly when initialized, in range and the hardware succeeds; the frequency changes only on 0 |
| Generator.SetDutyResult | src/generator.c:83-90 | -1 before init, -2 above 100, else 0 with the new duty stored and, if running, written to the channel; the frequency, the running and initialized flags stay |
| Generator.Started | src/generator.c:92-96 | start sets running, also before init, and applies the duty |
| Generator.Stopped | src/generator.c:98-102 | stop clears running, also before init, and zeroes the hardware duty |
| Generator.InitialValid | src/generator.c:19-22 | the initial statics satisfy the invariant |
| Generator.ValidKept | src/generator.c:38-102 | every operation keeps the frequency in 1..40000000, the duty at most 100 and the hardware duty consistent |
| Generator.PwmGenerator.constructor | src/generator.c:19-22 | the statics start uninitialized, stopped, at 1000 Hz and 50 % |
| Generator.PwmGenerator.ApplyOutput | src/generator.c:24-36 | the new state is the applied state |
| Generator.PwmGenerator.Init | src/generator.c:38-70 | the state and result code are those of InitResult |
| Generator.PwmGenerator.SetFreqHz | src/generator.c:72-81 | the state and result code are those of SetFreqResult |
| Generator.PwmGenerator.SetDutyPercent | src/generator.c:83-90 | the state and result code are those of SetDutyResult |
| Generator.PwmGenerator.Start | src/generator.c:92-96 | the new state is Started |
| Generator.PwmGenerator.Stop | src/generator.c:98-102 | the new state is Stopped |
| Generator.PwmGenerator.IsRunning | src/generator.c:104-107 | returns the running flag |
| Generator.PwmGenerator.GetFreqHz | src/generator.c:109-112 | returns the stored frequency |
| Generator.PwmGenerator.GetDutyPercent | src/generator.c:114-117 | returns the stored duty |
| Framing.StepOk | src/uart_cmd.c:133-142 | one character keeps the buffer at most 63 characters without CR or LF and hands on only such non-empty lines |
| Framing.FrameOk | src/uart_cmd.c:131-143 | line_len never exceeds 63; every line handed on is non-empty, at most 63 characters and free of CR and LF |
| Framing.FullBufferSplits | src/uart_cmd.c:133-139 | with 63 characters waiting, the next ordinary character starts a new line |
| Framing.Unbroken | src/uart_cmd.c:131-143 | removing the line breaks never lengthens the input |
| Framing.StepContent | src/uart_cmd.c:133-142 | one character loses nothing: the line handed on and the new buffer are the old buffer and the character, unless it is a break |
| Framing.ConcatAppend | src/uart_cmd.c:131-143 | the text of two batches of lines is the text of the first then of the second |
| Framing.FrameIndexStep | src/uart_cmd.c:131-132 | framing i + 1 characters is one more loop step after framing i |
| Framing.FrameContentStep | src/uart_cmd.c:131-143 | one more character keeps the content relation |
| Framing.FrameContent | src/uart_cmd.c:131-143 | the lines handed on, then the buffer, are the old buffer and the input without CR and LF, in order |
| Framing.FrameAppendStep | src/uart_cmd.c:123-131 | one more character keeps the chunking relation |
| Framing.FrameAppend | src/uart_cmd.c:123-131 | framing two chunks one after the other is framing their concatenation |
| Framing.FrameOneLine | src/uart_cmd.c:131-143 | a line of at most 63 characters followed by CR or LF arrives as exactly that line |
| Framing.FrameNoBreak | src/uart_cmd.c:140-141 | characters without a break are only buffered while they fit |
| Framing.StepChar | src/uart_cmd.c:133-142 | (no contract of its own) one pass of the character loop; StepOk, StepContent and FullBufferSplits state what it does |
| Framing.Frame | src/uart_cmd.c:131-143 | (no contract of its own) the character loop over an input; FrameOk, FrameContent, FrameAppend and FrameOneLine state what it does |
| Replies.StatusReply | src/uart_cmd.c:40-44 | (no contract of its own) the status text; RepliesFit bounds it and Interop.StatusReplyParsed parses it back |
| Replies.OkFreq | src/uart_cmd.c:70 | (no contract of its own) the OK FREQ reply; RepliesFit bounds it and Interop.OkValues classifies it |
| Replies.OkDuty | src/uart_cmd.c:87 | (no contract of its own) the OK DUTY reply; RepliesFit bounds it and Interop.OkValues classifies it |
| Replies.SetterRepliesDiffer | src/uart_cmd.c:61-93 | the three answers to FREQ differ from each other, and so do the three to DUTY |
| Replies.RepliesFit | src/uart_cmd.c:39-70 | the status and OK replies fit their 80- and 32-byte snprintf buffers for values in range |
| UartCmd.FreqReaction | src/uart_cmd.c:61-76 | the range error exactly for 0 or above 40000000; OK FREQ val exactly when initialized, in range and the hardware succeeds, and then only the frequency changes; ERR FREQ exactly when in range but not so, with nothing changed |
| UartCmd.DutyReaction | src/uart_cmd.c:78-93 | the range error exactly above 100; OK DUTY val exactly when initialized and at most 100, and then the duty is stored and applied; ERR DUTY exactly when not initialized, with nothing changed |
| UartCmd.Dispatch | src/uart_cmd.c:38-107 | every non-blank line gets a reply; only ON/START, OFF/STOP, FREQ and DUTY lines can change the generator |
| UartCmd.Respond | src/uart_cmd.c:26-108 | a line gets no reply exactly when it trims to nothing, and then nothing changes |
| UartCmd.Advance | src/uart_cmd.c:135-136 | one line writes at most one reply after the earlier ones, and a line without a reply changes nothing |
| UartCmd.Run | src/uart_cmd.c:131-143 | processing lines only appends replies, at most one per line |
| UartCmd.AdvanceTrimmed | src/uart_cmd.c:29-36 | a line that trims to nothing is ignored; otherwise the trimmed text is dispatched and its reply is written |
| UartCmd.RunAppend | src/uart_cmd.c:131-143 | processing two batches of lines one after the other is processing them together |
| UartCmd.RunExtends | src/uart_cmd.c:21-24 | processing lines only appends to what was written, at most one reply per line |
| UartCmd.RunSnoc | src/uart_cmd.c:135-136 | one more line processes on top of the earlier ones |
| UartCmd.FrameRunStep | src/uart_cmd.c:131-143 | one loop step keeps the buffer and the session equal to framing and processing the input so far |
| UartCmd.RespondPadded | src/uart_cmd.c:29-34 | leading spaces and trailing CR/LF/spaces around a command do not change its handling |
| UartCmd.RespondTrail | src/uart_cmd.c:29-32 | trailing CR/LF/spaces after a command do not change its handling |
| UartCmd.DispatchKeywords | src/uart_cmd.c:38-104 | ?/STATUS reply the current state, ON/START start, OFF/STOP stop, HELP replies the help text |
| UartCmd.DispatchUnknown | src/uart_cmd.c:107 | VER?, ID? and a bare FREQ get the unknown-command error and change nothing |
| UartCmd.DispatchFreqArg | src/uart_cmd.c:61-62 | a FREQ line is handled on strtoul of its argument, whatever follows the number |
| UartCmd.DispatchDutyArg | src/uart_cmd.c:78-79 | a DUTY line is handled on strtoul of its argument, whatever follows the number |
| UartCmd.DispatchFreq | src/uart_cmd.c:61-76 | FREQ with a decimal number and any non-digit text is handled on that number, saturated |
| UartCmd.DispatchDuty | src/uart_cmd.c:78-93 | DUTY with a decimal number and any non-digit text is handled on that number, saturated |
| UartCmd.TrailingSpaceOn | src/uart_cmd.c:29-53 | "ON" followed by spaces, CR or LF is handled as ON |
| UartCmd.FreqReactionValid | src/uart_cmd.c:61-76 | the FREQ branch keeps the generator invariant |
| UartCmd.DutyReactionValid | src/uart_cmd.c:78-93 | the DUTY branch keeps the generator invariant |
| UartCmd.DispatchValid | src/uart_cmd.c:38-107 | every line keeps the generator invariant |
| UartCmd.RunValid | src/uart_cmd.c:123-143 | any sequence of lines keeps the generator invariant |
| UartCmd.TruncateTrailing | src/uart_cmd.c:29-32 | the trailing CR/LF/spaces become NULs and n is the length of the trailing trim |
| UartCmd.UartTask.constructor | src/uart_cmd.c:118-121 | the task starts with an empty line buffer after writing its banner |
| UartCmd.UartTask.FreqCommand | src/uart_cmd.c:61-76 | the generator and the replies change as FreqReaction says |
| UartCmd.UartTask.DutyCommand | src/uart_cmd.c:78-93 | the generator and the replies change as DutyReaction says |
| UartCmd.UartTask.DispatchLine | src/uart_cmd.c:38-107 | the generator and the replies change as Dispatch says |
| UartCmd.UartTask.TrimLine | src/uart_cmd.c:29-34 | the pointers delimit exactly the trimmed C string, NUL-terminated |
| UartCmd.UartTask.ProcessLine | src/uart_cmd.c:26-108 | process_line moves the session as Advance says on the buffered line |
| UartCmd.UartTask.EndLine | src/uart_cmd.c:134-137 | a non-empty buffer is processed, and then the buffer is emptied |
| UartCmd.UartTask.Append | src/uart_cmd.c:141 | the character joins the buffered line |
| UartCmd.UartTask.ReceiveChar | src/uart_cmd.c:132-142 | one character moves the buffer as StepChar does and processes the line it hands on |
| UartCmd.UartTask.Receive | src/uart_cmd.c:130-143 | a chunk leaves the buffer and the session as framing the chunk and processing its lines |
| Arduino.Applied | src/main_arduino.cpp:45-53 | applyOutput writes only the hardware duty: 0 when stopped, the computed duty, at most 1023, when running |
| Arduino.FreqCommand | src/main_arduino.cpp:93-104 | out of 1..40000000 replies the range error and changes nothing; else the frequency and timer take v, applyOutput rewrites the duty of the running output (0 when stopped), duty and running stay, and the reply is OK FREQ v |
| Arduino.DutyCommand | src/main_arduino.cpp:105-115 | above 100 replies the range error and changes nothing; else the duty takes v and is applied, frequency, timer and running stay, and the reply is OK DUTY v |
| Arduino.Dispatch | src/main_arduino.cpp:64-128 | every non-blank line gets a reply; only ON/START, OFF/STOP, FREQ and DUTY lines change state |
| Arduino.Respond | src/main_arduino.cpp:59-129 | a line gets no reply exactly when nothing but spaces precede its NUL, and then nothing changes |
| Arduino.Advance | src/main_arduino.cpp:148 | one line writes at most one reply after the earlier ones, and a line without a reply changes nothing |
| Arduino.Run | src/main_arduino.cpp:143-156 | processing lines only appends replies, at most one per line |
| Arduino.RunSnoc | src/main_arduino.cpp:148 | one more line processes on top of the earlier ones |
| Arduino.FrameRunStep | src/main_arduino.cpp:144-154 | one loop step keeps the buffer and the session equal to framing and processing the input so far |
| Arduino.BootedValid | src/main_arduino.cpp:26-137 | the state after setup satisfies the invariant |
| Arduino.DispatchValid | src/main_arduino.cpp:93-115 | every line keeps s_freq in 1..40000000, s_dutyPercent at most 100 and the hardware duty at most 1023 |
| Arduino.RunValid | src/main_arduino.cpp:143-156 | any sequence of lines keeps the invariant |
| Arduino.RespondSilent | src/main_arduino.cpp:60-61 | no reply is sent exactly when the C string is all spaces, and then nothing changes |
| Arduino.DispatchKeywords | src/main_arduino.cpp:64-127 | VER?/ID? reply the identification, ?/STATUS the current state, HELP the help text; none changes state |
| Arduino.DispatchOnOff | src/main_arduino.cpp:81-92 | ON/START set running and apply the duty; OFF/STOP clear it and write 0; each replies OK ON / OK OFF |
| Arduino.RespondLeadingSpaces | src/main_arduino.cpp:60 | leading spaces before a command do not change its handling |
| Arduino.RespondCommand | src/main_arduino.cpp:59-61 | a line without leading space or NUL is dispatched as it is |
| Arduino.TrailingSpaceUnknown | src/main_arduino.cpp:60-128 | "ON " is an unknown command, because trailing spaces are kept |
| Arduino.DispatchFreqArg | src/main_arduino.cpp:93-94 | a FREQ line is handled on strtoul of its argument, whatever follows the number |
| Arduino.DispatchDutyArg | src/main_arduino.cpp:105-106 | a DUTY line is handled on strtoul of its argument, whatever follows the number |
| Arduino.DispatchFreq | src/main_arduino.cpp:93-104 | FREQ with a decimal number and any non-digit text is handled on that number, saturated |
| Arduino.DispatchDuty | src/main_arduino.cpp:105-115 | DUTY with a decimal number and any non-digit text is handled on that number, saturated |
| Arduino.CommandBounds | src/main_arduino.cpp:59-61 | the pointer after the leading spaces delimits the skipped C string, and it is at the NUL exactly when that is empty |
| Arduino.ArduinoFirmware.constructor | src/main_arduino.cpp:131-141 | after setup the statics hold 1000 Hz, 50 %, stopped, an empty line, and the banner is written |
| Arduino.ArduinoFirmware.ApplyOutput | src/main_arduino.cpp:45-53 | the new state is the applied state |
| Arduino.ArduinoFirmware.Freq | src/main_arduino.cpp:93-104 | the statics and the replies change as FreqCommand says |
| Arduino.ArduinoFirmware.Duty | src/main_arduino.cpp:105-115 | the statics and the replies change as DutyCommand says |
| Arduino.ArduinoFirmware.DispatchLine | src/main_arduino.cpp:64-128 | the statics and the replies change as Dispatch says |
| Arduino.ArduinoFirmware.SkipLeading | src/main_arduino.cpp:60 | the pointer stops at the first non-space after only spaces |
| Arduino.ArduinoFirmware.ProcessLine | src/main_arduino.cpp:59-129 | processLine moves the session as Advance says on the buffered line |
| Arduino.ArduinoFirmware.EndLine | src/main_arduino.cpp:147-149 | a non-empty buffer is processed, and then the buffer is emptied |
| Arduino.ArduinoFirmware.Append | src/main_arduino.cpp:152 | the character joins the buffered line |
| Arduino.ArduinoFirmware.ReceiveChar | src/main_arduino.cpp:145-153 | one character moves the buffer as StepChar does and processes the line it hands on |
| Arduino.ArduinoFirmware.Loop | src/main_arduino.cpp:143-156 | the available characters leave the buffer and the session as framing them and processing the lines |
| Interop.StatusReplyText | src/uart_cmd.c:40-44 | the status reply is the status text followed by CR LF |
| Interop.StatusReplyParsed | gui/protocol.py:57-70 | the host parses a status reply to exactly its frequency, duty and on flag |
| Interop.EspStatusRoundTrip | src/uart_cmd.c:38-47 | the ESP-IDF reply to ?/STATUS changes nothing and parses to the generator's values |
| Interop.ArduinoStatusRoundTrip | src/main_arduino.cpp:72-80 | the Arduino reply to ?/STATUS changes nothing and parses to the statics' values |
| Interop.IdReplyRecognised | src/main_arduino.cpp:64-70 | "UART-GEN,1.0\r\n" passes the host's signature test |
| Interop.ArduinoIdentifies | src/main_arduino.cpp:64-70 | the Arduino answers VER? and ID? with a reply the host recognises, changing nothing |
| Interop.UnknownNotRecognised | gui/protocol.py:52-54 | the unknown-command error does not pass the signature test |
| Interop.EspNotIdentified | src/uart_cmd.c:107 | the ESP-IDF firmware answers VER? with the unknown-command error, which the host does not recognise |
| Interop.StripReply | gui/protocol.py:73-78 | a reply's CR LF is stripped away by the host |
| Interop.OkLine | gui/protocol.py:73-74 | a line "OK …" + CR LF is an OK response and not an ERR one |
| Interop.ErrLine | gui/protocol.py:77-78 | a line "ERR …" + CR LF is an ERR response and not an OK one |
| Interop.OkOnClassified | src/uart_cmd.c:51 | "OK ON" is classified as OK |
| Interop.OkOffClassified | src/uart_cmd.c:57 | "OK OFF" is classified as OK |
| Interop.ErrFreqRangeClassified | src/uart_cmd.c:64 | the FREQ range error is classified as ERR |
| Interop.ErrFreqClassified | src/uart_cmd.c:73 | "ERR FREQ" is classified as ERR |
| Interop.ErrDutyRangeClassified | src/uart_cmd.c:81 | the DUTY range error is classified as ERR |
| Interop.ErrDutyClassified | src/uart_cmd.c:90 | "ERR DUTY" is classified as ERR |
| Interop.ErrUnknownClassified | src/uart_cmd.c:107 | the unknown-command error is classified as ERR |
| Interop.OkValues | src/uart_cmd.c:70-87 | OK FREQ v and OK DUTY v are classified as OK for every v |
| Interop.EspFreqClassified | src/uart_cmd.c:61-76 | every ESP-IDF reply to FREQ is classified as exactly one of OK and ERR |
| Interop.EspDutyClassified | src/uart_cmd.c:78-93 | every ESP-IDF reply to DUTY is classified as exactly one of OK and ERR |
| Interop.EspRepliesClassified | src/uart_cmd.c:49-107 | every ESP-IDF reply other than status and HELP is classified as exactly one of OK and ERR |
| Interop.ArduinoFreqClassified | src/main_arduino.cpp:93-104 | every Arduino reply to FREQ is classified as exactly one of OK and ERR |
| Interop.ArduinoDutyClassified | src/main_arduino.cpp:105-115 | every Arduino reply to DUTY is classified as exactly one of OK and ERR |
| Interop.ArduinoRepliesClassified | src/main_arduino.cpp:81-128 | every Arduino reply other than identification, status and HELP is classified as exactly one of OK and ERR |
| Interop.NumberCommandSendable | gui/protocol.py:21-32 | the FREQ and DUTY commands are short lines without breaks, NULs or surrounding spaces |
| Interop.SendableStopFree | gui/generator_gui.py:297 | a sendable command contains no NUL, CR or LF |
| Interop.ParseThenNewline | gui/generator_gui.py:297 | a command followed by the host's newline classifies as the command |
| Interop.ParseSent | src/cmd_parse.c:30-37 | a sendable command, as sent, classifies as the command |
| Interop.HostFreqParsed | gui/protocol.py:21-25 | every FREQ command the host builds is accepted by cmd_parse with that frequency |
| Interop.HostDutyParsed | gui/protocol.py:28-32 | every DUTY command the host builds is accepted by cmd_parse with that duty |
| Interop.HostOnParsed | gui/protocol.py:35-36 | the host's ON command parses as ON |
| Interop.HostOffParsed | gui/protocol.py:39-40 | the host's OFF command parses as OFF |
| Interop.HostStatusParsed | gui/protocol.py:43-44 | the host's status query parses as STATUS |
| Interop.HostIdUnknown | gui/protocol.py:47-49 | the host's VER? is unknown to cmd_parse |
| Interop.EspRunsSent | src/uart_cmd.c:131-143 | a sendable command, as sent, is one line that the ESP-IDF firmware dispatches, writing its one reply |
| Interop.BuiltFreqDispatched | gui/protocol.py:25 | a built FREQ command is "FREQ " followed by the decimal digits of hz |
| Interop.BuiltDutyDispatched | gui/protocol.py:32 | a built DUTY command is "DUTY " followed by the decimal digits of percent |
| Interop.EspExecutesFreq | src/uart_cmd.c:61-76 | the ESP-IDF firmware carries out a built FREQ command with the host's value |
| Interop.EspExecutesDuty | src/uart_cmd.c:78-93 | the ESP-IDF firmware carries out a built DUTY command with the host's value |
| Interop.EspAnswersStatus | src/uart_cmd.c:38-47 | the host's status query makes the ESP-IDF firmware write one reply, which parses to its state |
| Interop.EspExecutesOn | src/uart_cmd.c:49-53 | the host's ON, sent with its newline, starts the ESP-IDF generator and writes exactly OK ON |
| Interop.EspExecutesOff | src/uart_cmd.c:55-59 | the host's OFF, sent with its newline, stops the ESP-IDF generator and writes exactly OK OFF |
| Interop.ArduinoRunsSent | src/main_arduino.cpp:143-156 | a sendable command, as sent, is one line that the Arduino firmware dispatches, writing its one reply |
| Interop.ArduinoExecutesFreq | src/main_arduino.cpp:93-104 | the Arduino firmware sets a built FREQ command's value and replies OK FREQ with it |
| Interop.ArduinoExecutesDuty | src/main_arduino.cpp:105-115 | the Arduino firmware sets a built DUTY command's value and replies OK DUTY with it |
| Interop.ArduinoAnswersId | src/main_arduino.cpp:64-70 | the host's VER? makes the Arduino firmware write one reply, which the host recognises |
| Interop.ArduinoAnswersStatus | src/main_arduino.cpp:72-80 | the host's status query makes the Arduino firmware write one reply, which parses to its statics, and changes nothing |
| Interop.ArduinoExecutesOn | src/main_arduino.cpp:81-86 | the host's ON, sent with its newline, sets the running flag, applies the duty and writes exactly OK ON |
| Interop.ArduinoExecutesOff | src/main_arduino.cpp:87-92 | the host's OFF, sent with its newline, clears the running flag, zeroes the channel and writes exactly OK OFF |
| Interop.EspRefusesId | src/uart_cmd.c:107 | the host's VER? makes the ESP-IDF firmware reply the unknown-command error, which the host does not recognise |

## Left out

- The probe functions of gui/protocol.py (lines 81-160) are not modelled. They are serial I/O, sleeps, wall-clock deadlines and exception handling. Their one piece of logic is the test on the received text, which is `IsOurGeneratorResponse`.
- gui/generator_gui.py (widgets, threads, the read loop) is not part of this model. The one fact used from it is that every command goes out stripped and followed by "\n".
- Serial and UART I/O become values:
  - what a firmware writes is the `sent` sequence of reply strings;
  - what it reads arrives as a string per `uart_read_bytes` call or per `loop()` call.
- The 256-byte read buffer, the `malloc` failure path, `vTaskDelay`, `delay`, `uart_cmd_start`, `onUsbBusReset` and src/main.cpp are left out. They are configuration, RTOS and USB events with no effect on the protocol.
- The results of `ledc_timer_config`, `ledc_channel_config` and `ledc_set_freq` are parameters (`timerErr`, `channelErr`, `setFreqStatus`), because the hardware is not modelled. `setFreqStatus` is one function of the requested frequency for a whole session: the model assumes the hardware gives the same result for the same frequency at every call. `ledc_set_duty` / `ledcWrite` are modelled as the `ledcDuty` field. `ledcSetup` is modelled as the `ledcFreq` field.
- Arduino.ArduinoFirmware.DispatchLine: the pieces written by `Serial.print` (for example "OK FREQ ", the number, then "\r\n") are modelled as one reply string, and `Serial.flush` is left out.
- `setup()` is folded into the `ArduinoFirmware` constructor. Its banner is `Serial.println` of the text, that is the text followed by CR LF.
- The HELP replies are modelled as fixed strings reduced to their command column. The Russian descriptions are left out, because only the selection of the HELP reply matters.
- Python's Unicode semantics are left out:
  - `\d` is the ASCII digits;
  - `\s` and `str.strip` use the white-space characters of `str.isspace`;
  - characters are Dafny `char`s, with no encoding step.
- UartCmd.UartTask.FreqCommand: `generator_set_freq_hz` returns the raw `ledc_set_freq` error. An `ESP_FAIL` (-1) from the hardware is therefore indistinguishable by its code from "not initialized". The model keeps the raw value and draws no conclusion from it.
- CmdParse.FreqNegative: the verdicts on negative and very large arguments (also CmdParse.ArgumentNegative, CmdParse.FreqMinusUlongMax and CText.StrToULNegative) assume the 32-bit `unsigned long` of the ESP32. The host-side unit test of `cmd_parse.c` (test/test_cmd_parse.c) builds for a 64-bit host, where `ULONG_MAX` is 2^64 - 1: there "FREQ -4294967295" reads as 2^64 - 4294967295 and is out of range (-2), not 1 Hz. The width is fixed, not a parameter.
- Protocol.ParseStatusLine: `int()` on a digit group longer than CPython's default limit of 4300 digits (`sys.int_info.default_max_str_digits`, since 3.11 and 3.10.7) raises `ValueError`, which `parse_status_line` does not catch. The model returns a record for digit groups of any length, so Protocol.StatusLineRoundTrip and Interop.StatusReplyParsed hold for every `nat`. The firmware's values have at most 10 digits (`%lu` of a 32-bit value, `%u` of a duty up to 100), far below the limit.
