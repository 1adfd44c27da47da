# plug417serial — a Dafny model

plug417serial is a small C library and command-line tool for the PLUG417
thermal imaging sensor. It talks to the sensor over a serial line in
frames:

- two header bytes 0x55 0xAA;
- a length byte;
- a payload of up to 255 bytes, held in a 258-byte area;
- a checksum byte;
- the end byte 0xF0.

This project models the library's core:

- **Wire and page layout** (`protocol.dfy`, module `Protocol`):
  - the frame constants;
  - the functional classes (status, setup, video, application, temperature measurement, expert) and the video pages;
  - the option codes and the value maxima (colour 9, mirror 3, test screen 3, CMOS content 5, CMOS interface 2, brightness and contrast 100);
  - the packed structures: command (7 bytes), query, status (19 bytes), analog and digital video page (17 bytes each), frame (263 bytes).

  Each structure is a list of field widths with proved offsets. The command, status and video page payloads are datatypes with a big-endian decoder and encoder, and both round trips are proved. A query has an encoder and decoder too, with the decode-after-encode round trip.
- **Byte arithmetic** (`bytes.dfy`, module `Bytes`):
  - byte, 16-bit, 32-bit and C `int` ranges;
  - big-endian field extraction, the `be16toh`/`be32toh` of the pretty-printer;
  - a bitwise exclusive-or with its algebra.
- **Checksum** (`checksum.dfy`, module `Checksum`):
  - `xor_checkout` as written, which never touches its accumulator;
  - the exclusive-or fold it is evidently meant to compute, with the fold's laws.
- **Command mini-language** (`commands.dfy`, module `Commands`). The
  tool's `-r` option takes strings such as `digit:port=2:cmos=1`.
  - `parse_elm` cuts one `key[=value]` element into two NUL-terminated buffers. It is modelled by a method over arrays and a specification function.
  - `plug417_cmd_handler` records, for every entry of a sub-command table, the setting of the last key naming it, by name or alias, in `int set[16]`. It then dispatches the recorded values. As written, the dispatch loop hands every value to the first entry's setter (see Findings). The model has that loop and a corrected one that calls each entry's own setter in table order; the handler uses the corrected loop.
  - `plug417_set_command` picks the command group named by the first element.
  - The eight sub-command tables and the group table are constant data.
  - The setters' bodies are not modelled. A setter call is recorded in a trace, and its return value comes from an `outcome` parameter.
  - `strtol(val, NULL, 0)` is a `conv` parameter.
- **Reply interpretation** (`print.dfy`, module `Print`):
  - the labels printed for a status reply and for the analog and digital video pages, as returned values;
  - the return codes of `plug417_query_reply_print`;
  - the global debug level (a class with one field);
  - the sixteen-bytes-per-row layout of `dump_buf`.

## Model

| member | source | states |
|---|---|---|
| Bytes.BE16 | src/plug417print.c:97-98 | the big-endian 16-bit value at `at`: its high byte is `s[at]`, its low byte `s[at+1]` |
| Bytes.BE32 | src/plug417print.c:125 | the big-endian 32-bit value at `at`: its high half is the 16-bit value at `at`, its low half the one at `at+2` |
| Bytes.ToBE16 | include/plug417serial.h:123-125 | two bytes from which `BE16` reads back `v` |
| Bytes.ToBE32 | include/plug417serial.h:172 | four bytes from which `BE32` reads back `v` |
| Bytes.BE16Bytes | include/plug417serial.h:203 | reading a 16-bit field and writing it back gives the original two bytes |
| Bytes.BE32Bytes | include/plug417serial.h:206 | reading a 32-bit field and writing it back gives the original four bytes |
| Bytes.XorZero | src/plug417serial.c:12 | 0 is the identity of exclusive-or, on both sides |
| Bytes.XorSelf | src/plug417serial.c:10-19 | every value exclusive-ored with itself is 0 |
| Bytes.XorComm | src/plug417serial.c:10-19 | exclusive-or is commutative |
| Bytes.XorAssoc | src/plug417serial.c:10-19 | exclusive-or is associative |
| Bytes.XorBelow | src/plug417serial.c:10-19 | exclusive-or of two values below 2^n is below 2^n |
| Bytes.XorByte | src/plug417serial.c:10-19 | exclusive-or of two bytes is a byte, and equals the bitwise exclusive-or |
| Protocol.CommandLayout | include/plug417serial.h:168-173 | the packed command is 7 bytes with the 32-bit command at offset 3; query options start at offset 2 (lines 179-183) |
| Protocol.StatusLayout | include/plug417serial.h:195-208 | the packed status is 19 bytes: temperature at 7, video system at 9, resolution at 10, machine id at 11, reserved at 15 |
| Protocol.AnalogVideoPageLayout | include/plug417serial.h:117-127 | the analog page is 17 bytes: zoom_x at 5, zoom_y at 7, hotspot_track at 9, reserved at 11 |
| Protocol.DigitalVideoPageLayout | include/plug417serial.h:138-146 | the digital page is 17 bytes: six one-byte fields, then 11 reserved bytes |
| Protocol.FrameLayout | include/plug417serial.h:210-222 | the frame is 263 bytes: length at 2, payload area at 3, checksum at 261, end byte at 262 |
| Protocol.EncodeCommand | include/plug417serial.h:168-173 | a command takes exactly 7 bytes |
| Protocol.DecodeCommand | include/plug417serial.h:168-173 | decoding succeeds if and only if there are at least 7 bytes; functional, page and option are bytes 0, 1, 2 |
| Protocol.CommandRoundTrip | include/plug417serial.h:168-173 | decoding an encoded command gives the command back |
| Protocol.CommandBytesRoundTrip | include/plug417serial.h:168-173 | encoding a decoded command gives back its 7 bytes |
| Protocol.DecodeQuery | include/plug417serial.h:179-183 | decoding succeeds if and only if there are at least 3 bytes; functional, page and the option bytes together are the input |
| Protocol.EncodeQuery | include/plug417serial.h:179-183 | functional and page come first, then the option bytes |
| Protocol.QueryRoundTrip | include/plug417serial.h:179-183 | a query with at least its one declared option byte decodes back from its bytes |
| Protocol.EncodeStatus | include/plug417serial.h:195-208 | a status takes exactly 19 bytes |
| Protocol.DecodeStatus | include/plug417serial.h:195-208 | decoding succeeds if and only if there are at least 19 bytes, and gives a well-formed status |
| Protocol.StatusRoundTrip | include/plug417serial.h:195-208 | decoding an encoded status gives the status back |
| Protocol.StatusBytesRoundTrip | include/plug417serial.h:195-208 | encoding a decoded status gives back its 19 bytes |
| Protocol.EncodeAnalogVideoPage | include/plug417serial.h:117-127 | an analog page takes exactly 17 bytes |
| Protocol.DecodeAnalogVideoPage | include/plug417serial.h:117-127 | decoding succeeds if and only if there are at least 17 bytes, and gives a well-formed page |
| Protocol.AnalogVideoPageRoundTrip | include/plug417serial.h:117-127 | decoding an encoded analog page gives the page back |
| Protocol.AnalogVideoPageBytesRoundTrip | include/plug417serial.h:117-127 | encoding a decoded analog page gives back its 17 bytes |
| Protocol.EncodeDigitalVideoPage | include/plug417serial.h:138-146 | a digital page takes exactly 17 bytes |
| Protocol.DecodeDigitalVideoPage | include/plug417serial.h:138-146 | decoding succeeds if and only if there are at least 17 bytes, and gives a well-formed page |
| Protocol.DigitalVideoPageRoundTrip | include/plug417serial.h:138-146 | decoding an encoded digital page gives the page back |
| Protocol.DigitalVideoPageBytesRoundTrip | include/plug417serial.h:138-146 | encoding a decoded digital page gives back its 17 bytes |
| Protocol.FrameImage | include/plug417serial.h:210-222 | the in-memory image of a frame buffer is 263 bytes |
| Protocol.FrameOfImage | include/plug417serial.h:210-222 | every 263-byte image is a well-formed frame buffer |
| Protocol.FrameImageRoundTrip | include/plug417serial.h:210-222 | reading back the image of a frame gives the frame |
| Protocol.ImageFrameRoundTrip | include/plug417serial.h:210-222 | the image of the frame read from an image is that image |
| Protocol.Payload | include/plug417serial.h:212-219 | the payload is the first `length` bytes of the 258-byte area, so any byte length fits |
| Protocol.WireBytes | include/plug417serial.h:14-222 | a frame on the wire is header, length, payload, checksum, end: `length + 5` bytes, at most 260; a delimited frame starts 0x55 0xAA and ends 0xF0 |
| Protocol.ReplyQuery | include/plug417serial.h:179-183 | a reply read as a query: functional and page are payload bytes 0 and 1, and the options are the rest of the payload area |
| Checksum.XorCheckout | src/plug417serial.c:10-19 | as written: the loop runs exactly `len` rounds, the buffer is only read, and the result is 0 for every buffer |
| Checksum.XorFold | src/plug417serial.c:10-19 | the intended checksum, the exclusive-or of all bytes; the checksum of a single byte is that byte |
| Checksum.XorChecksum | src/plug417serial.c:10-19 | the intended loop: the result is the exclusive-or fold of the first `len` bytes |
| Checksum.XorFoldAppend | src/plug417serial.c:10-19 | the fold of `a + b` is the exclusive-or of the folds of `a` and `b` |
| Checksum.XorFoldSelfCancel | include/plug417serial.h:220 | appending a sequence's checksum makes the whole fold to 0 |
| Checksum.LiteralChecksumBreaksLaw | src/plug417serial.c:12-18 | for the buffer `[1]` the intended checksum is 1, not the 0 returned as written, and appending 0 does not make the body fold to 0 |
| Checksum.EmptyBufferAgrees | src/plug417serial.c:12-18 | for an empty buffer the intended fold is 0, as the routine as written returns |
| Commands.Span | src/plug417cmd.c:21-24 | a copy loop copies at most `size` characters, stays inside the string, and stops early only at ':', '=' or NUL |
| Commands.SpanNoStop | src/plug417cmd.c:21-24 | no copied character is ':', '=' or NUL |
| Commands.SpanBeforeNul | src/plug417cmd.c:21-24 | the copy never passes a NUL |
| Commands.ParseElement | src/plug417cmd.c:16-44 | the key is the slice of the input at `pos`; the element ends at or after `pos`, inside the same terminated string |
| Commands.ParseElementProgress | src/plug417cmd.c:21-43 | parsing never passes the terminating NUL; with a budget of at least 1 and a non-empty rest it advances, so the loop at line 244 ends |
| Commands.ParseElementKey | src/plug417cmd.c:20-30 | the key is free of ':', '=' and NUL; it is at most `size` long and, when shorter, is followed by a stop character; a key ended by ':' has an empty value and parsing resumes just past the ':' |
| Commands.ParseElementBudget | src/plug417cmd.c:21-37 | the value is free of stop characters, and key and value together take at most `size` characters |
| Commands.ParseElementValue | src/plug417cmd.c:31-43 | unless the key ended at ':', the value is the stop-free run after an optional '=', ended by a stop character unless the budget ran out, and one ':' or '=' after it is skipped |
| Commands.KeyOverrunsBuffer | src/plug417cmd.c:231-245 | with the budget `sizeof(parm)` = 64, a 64-character key is copied whole, so its NUL lands at index 64, past `parm[64]`; a 64-character value after an empty key does the same to `val[64]` |
| Commands.NulInsideModelBuffers | src/plug417cmd.c:231-245 | under the budget 64 neither key nor value exceeds 64 characters, so buffers of 65 cells hold both NULs; a 64-character key leaves the value empty |
| Commands.ParseElm | src/plug417cmd.c:16-44 | the method leaves the parsed key and value in the two buffers, each followed by a NUL, leaves every cell after each NUL as it was, and returns where the next element starts |
| Commands.CopyRun | src/plug417cmd.c:21-25 | one copy loop: it copies exactly the run `Span` names, then writes a NUL, and changes no cell after the NUL |
| Commands.CStrHolds | src/plug417cmd.c:20-38 | a buffer holding a stop-free string followed by a NUL reads back, as a C string, as that string |
| Commands.CommandTableShape | src/plug417cmd.c:59-226 | every sub-command table has at most 10 entries, fewer than the 16 values of `set`; every table fits and no two groups share a name |
| Commands.Record | src/plug417cmd.c:248-259 | one element updates exactly the entries whose name or alias equals the key, each to its fixed setting or the converted value; every other value is unchanged |
| Commands.Elements | src/plug417cmd.c:244-245 | the handler's parse loop meets no element exactly when the rest of the string is empty, and at most one element per character |
| Commands.Settings | src/plug417cmd.c:244-260 | recording a list of elements keeps the number of values |
| Commands.ParsedSettings | src/plug417cmd.c:237-260 | the handler's recorded values are 16 |
| Commands.SettingsUnnamed | src/plug417cmd.c:241-259 | an entry no key names keeps its value, -1 after the initialisation loop |
| Commands.SettingsLastMatch | src/plug417cmd.c:244-259 | an entry's value is the setting of the last element naming it |
| Commands.Unsigned | src/plug417cmd.c:271 | the `int` `set[0]` passed as `unsigned int`: non-negative values unchanged, negative values plus 2^32 |
| Commands.Planned | src/plug417cmd.c:263-277 | the corrected loop's calls when no setter fails: at most one call per remaining entry |
| Commands.Dispatch | src/plug417cmd.c:263-277 | the corrected dispatch loop, with `sub` advanced together with `i`: at most one call per remaining entry, and with no call the incoming `err` is returned |
| Commands.DispatchFollowsPlan | src/plug417cmd.c:263-277 | the corrected dispatch makes the planned calls in table order and stops only at a failing setter. Its trace is a prefix of the plan. A negative result is that of the last call. Otherwise all planned calls are made, and the last result (or 0) is returned |
| Commands.NegativeNeverPlanned | src/plug417cmd.c:266 | an entry whose value is negative is never called |
| Commands.NegativeValueDropped | src/plug417cmd.c:140-168 | a negative value given to a sub-command (a documented negative threshold or calibration) never reaches its setter: every call belongs to another entry |
| Commands.PlannedCalls | src/plug417cmd.c:266-273 | every planned call is that of an entry with a value and a setter: `handler(set[i])` or `handler_ext(set[0], set[i])` |
| Commands.DispatchAsWritten | src/plug417cmd.c:263-277 | the dispatch loop as written, with `sub` never advanced: when it does not return it reads `set[16]`, past the values |
| Commands.AsWrittenRunsOffEnd | src/plug417cmd.c:263-277 | as written, while no setter fails the loop always runs past the last value |
| Commands.AsWrittenSkipsUnset | src/plug417cmd.c:263-277 | as written, with no value set the loop calls nothing and reads past the end |
| Commands.PortRecorded | src/plug417cmd.c:237-260 | when `strtol` reads "2" as 2, the handler records for `digit:port=2` the value 2 for `port` and leaves the other fifteen values at -1 |
| Commands.PortValuesDispatch | src/plug417cmd.c:263-277 | with only the second value set to 2, the loop as written calls the external-synchronization setter with 2 and the corrected loop the parallel-port setter |
| Commands.PortGoesToWrongSetter | src/plug417cmd.c:263-277 | for the values recorded from `digit:port=2`, the loop as written calls the external-synchronization setter with 2; the corrected loop calls the parallel-port setter |
| Commands.RecordElement | src/plug417cmd.c:248-259 | the match loop updates the values array exactly as `Record` says |
| Commands.DispatchLoop | src/plug417cmd.c:263-277 | the corrected dispatch loop over the values array returns exactly the code and trace of `Dispatch` |
| Commands.CmdHandler | src/plug417cmd.c:231-278 | the handler's code and trace are those of dispatching the values recorded from every element of the string |
| Commands.FindGroup | src/plug417cmd.c:332-337 | a found group has the key's name, and when none is found no group has it |
| Commands.RunGroups | src/plug417cmd.c:332-339 | the group loop runs the handler of the group named by the key and returns its result; with no such group it returns the unset `err` and calls nothing |
| Commands.CheckedGroupResult | src/plug417cmd.c:321-339 | the group loop with `err` starting at -1: a matched group's result is unchanged, and an unknown group gives -1 with no call instead of the uninitialised value |
| Commands.UnknownGroupIndeterminate | src/plug417cmd.c:317-339 | `foo:x=1` parses to the key `foo`, which no group has: as written the result is the uninitialised `err`, and with `err` starting at -1 it is -1 |
| Commands.SetCommand | src/plug417cmd.c:317-340 | `help` returns 0 and calls nothing; an unknown group calls nothing and returns the uninitialised `err`; a known group returns its handler's code and trace on the rest of the string |
| Print.Label | src/plug417print.c:84-123 | a `switch` over a code: the code's entry in the table, or the unknown label for any other code |
| Print.LabelDecides | src/plug417print.c:84-123 | a code gets the unknown label if and only if it is beyond the table; two codes get the same label if and only if they are equal or both unknown |
| Print.LabelTables | src/plug417print.c:84-256 | each label table has one entry per defined code, with no repeats and no clash with its unknown label |
| Print.OnOff | src/plug417print.c:138 | "ON" if and only if the byte is non-zero, "OFF" if and only if it is 0 |
| Print.PrintStatus | src/plug417print.c:80-126 | the status report shows bytes 2, 4-6, 9 and 10, the big-endian temperature at 7-8 (in hundredths) and the big-endian machine id at 11-14; module type and resolution are the switch's `Label` of bytes 2 and 10 (0 "Observation type", 1 "Thermography type"; 0..5 "400x300" to "160x120"), and unknown if and only if the code is above the last defined one |
| Print.StatusReportOfStatus | src/plug417print.c:80-126 | the report of an encoded status shows that status's own fields, and the labels of its module type and resolution codes |
| Print.StatusExample | src/plug417print.c:80-126 | module 1, resolution 1 and bytes 0x09 0x60 print "Thermography type", "384x288" and 2400 hundredths |
| Print.PrintAnalogVideoPage | src/plug417print.c:131-172 | the analog report: ON if and only if byte 0 is non-zero; system and frame rate are UNKNOWN if and only if they are beyond codes 3 and 2 |
| Print.PrintDigitalVideoPage | src/plug417print.c:177-257 | the digital report: sync and MIPI are ON if and only if non-zero; port, contents, interface and frame rate are UNKNOWN if and only if they are beyond their last codes |
| Print.AnalogReportOfPage | src/plug417print.c:131-172 | an encoded analog page prints that page's labels |
| Print.DigitalReportOfPage | src/plug417print.c:177-257 | an encoded digital page prints that page's labels |
| Print.PrintVideoPage | src/plug417print.c:262-276 | page 0 prints the analog report, page 1 the digital one, any other page nothing, each if and only if |
| Print.QueryReplyPrint | src/plug417print.c:281-298 | -1 with nothing shown when no frame was received; -1 for a non-video reply; otherwise 0 with the page printed; 0 if and only if a frame of the video class |
| Print.Rows | src/plug417print.c:62-72 | a dump always has at least one row |
| Print.RowsConcat | src/plug417print.c:64-71 | the rows read back in order are exactly the dumped bytes |
| Print.RowsShape | src/plug417print.c:64-71 | row k starts at address 16k, every row but the last is full, the last holds 1 to 16 bytes, and there are ceiling(n/16) rows |
| Print.RowsFull | src/plug417print.c:66-70 | a full row followed by more bytes starts a new row 16 addresses on |
| Print.DebugState.constructor | src/plug417print.c:20 | the debug level starts at 0 |
| Print.DebugState.SetLevel | src/plug417print.c:22-30 | the level is stored and returned unclamped; the clamp only rewrites the parameter |
| Print.DebugState.DumpBuf | src/plug417print.c:53-73 | nothing above the debug level; otherwise exactly the rows of `Rows` for the first `size` bytes (none when `size` is not positive) |

## Left out

- `plug417_set_help` (src/plug417cmd.c:283-312) and `debug()` (src/plug417print.c:32-51): only text output, the clock and `strftime`. SetCommand keeps the help branch's result (0, no setter call) and not its text.
- The `printf` output itself. The labels and the dump rows are returned values; hex and decimal formatting is not modelled.
- The `* 0.01` floating-point scaling of the focal-spot temperature. The model keeps integer hundredths.
- The transport, open/close/send/recv/query (declared at include/plug417serial.h:233-264) and the setters' bodies are not modelled. Setter calls are opaque entries of a trace, and their return code is a parameter.
- src/plug417ctrl.c (the command-line front end) and src/test.c (a demo program) are not part of this model.
- `strtol(val, NULL, 0)` is the `conv` parameter. Its parsing and its narrowing to `int` are not modelled.
- Protocol.EncodeCommand: the byte order of the 32-bit command on the wire is assumed big-endian, as the status fields are read with `be16toh`/`be32toh`. The code that sends commands is not part of this model.
- Print.DebugState.SetLevel: models the build with `DEBUG` defined. Without it, the header's inline stub returns 0 and stores nothing (include/plug417serial.h:277).
- Commands.DispatchAsWritten: the read of `set[16]` and beyond is undefined behaviour in C. The model stops there with an `OutOfBounds` result instead of following what the memory might hold.
- Commands.SetCommand: the uninitialised `err` returned when no group matches is the value `Indeterminate`, not any particular integer.
- Commands.ParseElm: requires each buffer to hold `size` characters plus the NUL, which the driver's own 64-cell buffers with the budget 64 do not meet (see Findings). The model's callers, CmdHandler and SetCommand, pass the driver's budget 64 with 65-cell buffers. They parse every string exactly as the driver does, and the write past the driver's buffers is not modelled as memory corruption.
- Value maxima and option codes are constants only. The setters that would check them are not part of this model.
- The header's zoomed-area option macros contain a space, so their names end at `ZOOMED` and expand to `AREA 7`/`AREA 8`. The model keeps the option numbers 7 and 8.

## Findings

| source | as written | input that shows it | evidently intended | confidence | as-written member | corrected member |
|---|---|---|---|---|---|---|
| src/plug417serial.c:10-19 | `xor_checkout` counts `len` down but never reads the buffer or updates `cs`, so it returns 0 | the buffer `[1]`: returns 0, while its exclusive-or checksum is 1 | the exclusive-or of the first `len` bytes, so that a frame body followed by its checksum folds to 0 | not executed | Checksum.XorCheckout, Checksum.LiteralChecksumBreaksLaw | Checksum.XorChecksum, Checksum.XorFoldSelfCancel |
| src/plug417cmd.c:263-277 | the dispatch loop advances `i` but never `sub`, so every value goes to the first entry's setter, and the loop reads past `set[16]` unless a setter fails | `digit:port=2` (with `strtol("2") = 2`): records 2 for `port`, then calls `plug417_set_external_synchronization(2)` and reads `set[16]` | advance `sub` with `i`: call the parallel-port setter with 2 and stop at the table's end | not executed | Commands.DispatchAsWritten, Commands.PortRecorded, Commands.PortGoesToWrongSetter, Commands.AsWrittenRunsOffEnd | Commands.Dispatch, Commands.DispatchLoop, Commands.DispatchFollowsPlan |
| src/plug417cmd.c:231-245 | `parse_elm` is given `sizeof(parm)` = 64 as its budget for 64-cell buffers and writes each NUL at index "characters copied" | a first element of 64 letters: the key's NUL is written to `parm[64]`, past the buffer (likewise `=` then 64 letters for `val`) | buffers one cell longer than the budget, so every parse stays as it is and both NULs land inside; only a key or a value that alone has 64 characters is affected | not executed | Commands.KeyOverrunsBuffer | Commands.NulInsideModelBuffers, Commands.CmdHandler |
| src/plug417cmd.c:321-339 | `err` is declared without a value and is set only when a group's name matches, so an unknown group returns an uninitialised value | `foo:x=1`: no group is named `foo`, and the uninitialised `err` is returned | not documented; `err` starting at a failure code such as -1, the code the library returns on failure elsewhere, with matched groups unaffected | not executed | Commands.UnknownGroupIndeterminate, Commands.SetCommand | Commands.CheckedGroupResult |
