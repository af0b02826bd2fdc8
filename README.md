# Log: level filtering and buffer dumps, modelled in Dafny

This project models the small C logging library `Log` (files `log.h` and
`log.c`). It covers two parts.

- **The header's dispatch logic.**
  - The `log_level_t` enumeration and its order.
  - The `CONFIG_LOG_LEVEL >= level` test made by `LOG_LEVEL_LOCAL`, the `LOGx` macros and the `LOG_BUFFER_*` macros.
  - The `if / else if` chain of `LOG_LEVEL`, which picks a letter and a colour for each level.
  - The `LOG_SYSTEM_TIME_FORMAT` template that every line follows: colour escape, letter, `" ["`, timestamp, `"] "`, tag, `": "`, message, reset, newline.
- **The three buffer dumpers of `log.c`:**
  - `log_buffer_hex_internal`;
  - `log_buffer_char_internal`;
  - `log_buffer_hexdump_internal`.

  Each one cuts the buffer into runs of at most `BYTES_PER_LINE` (16) bytes. It renders each run into a char buffer and hands the result to `LOG_LEVEL`.

The files:

- `bytes.dfy` (module `Bytes`): bytes as unsigned chars; `%02x`; C-locale `isprint`; `%c`; and what `%s` reads out of a NUL-terminated buffer.
- `levels.dfy` (module `Levels`): everything in `log.h` except the buffer macros.
- `chunking.dfy` (module `Chunking`): the 16-byte split that all three dumpers' `do/while` loops make.
- `render.dfy` (module `Render`): the text of one run in each dumper. This is the hex line, the char line, and the hexdump line with its 16 fixed columns and ASCII gutter.
- `trace.dfy` (module `Trace`): `DumpTrace`, the sequence of lines a dumper sends to the sink.
- `dumpers.dfy` (module `Dumpers`): the dumpers and the `LOG_BUFFER_*` macros.
  - The dumpers are imperative methods that follow the C loops.
  - The hex and char dumpers write into a reused `array<char>` at offset 3 i or i, terminating after each write as `sprintf` does.
  - The hexdump appends piece by piece at a cursor.
  - Each dumper is proved to return exactly `DumpTrace` of its input.

How the model represents the sink and its inputs:

- **The sink.** The `vprintf`-like sink is the sequence of complete lines a call returns, in emission order.
- **The clock.** The timestamp is a parameter `clock: nat -> string`: `clock(k)` is the text read for the k-th line of one call.
- **Addresses.** The `%p` rendering of an address is a parameter `addrText: nat -> string`. The buffer's start address is `start`, and line k of a hexdump prints `addrText(start + 16 k)`.

Behaviour of the code worth knowing:

- **The char dumper ends at a zero byte.** The char dumper passes its buffer to `%s`, so a line ends at the run's first zero byte. The header asks for buffers of printable characters only (log.h:176). When a buffer breaks that rule, the sample output at log.h:56-59 shows the result: a run of "nolila" and zero bytes prints as `nolila`, and a run of zero bytes prints as an empty message. `Render.CharLineOfNolila` proves both.
- **Char lines can be shorter than their run.** For the same reason, a char line can hold fewer characters than its run has bytes.
- **A NONE-level call is never filtered out.** The comment on `LOG_NONE` (log.h:70) reads "No log output". But `CONFIG_LOG_LEVEL >= LOG_NONE` always holds, so a call made at level NONE (through `LOG_LEVEL_LOCAL` or a `LOG_BUFFER_*` macro) is emitted under every threshold, NONE included, and printed with the letter I. `Levels.NoneLevelAlwaysEmitted` proves this. A NONE threshold silences only calls at a real level.

## Model

| member | source | states |
|---|---|---|
| Levels.Rank | log.h:69-76 | each level's integer is its position in the declaration order NONE, ERROR, WARN, INFO, DEBUG, VERBOSE |
| Levels.Admits | log.h:145-147 | the threshold test `CONFIG_LOG_LEVEL >= level` every filtering macro makes (also log.h:168-246); a NONE-level call passes every threshold, and under a NONE threshold only a NONE-level call passes |
| Levels.AdmitsIffNoLaterInOrder | log.h:145-147 | `CONFIG_LOG_LEVEL >= level` holds exactly when the level is declared no later than the threshold |
| Levels.ThresholdExtremes | log.h:145-147 | NONE silences every real level, VERBOSE admits every level, and raising the threshold never silences an admitted level |
| Levels.NoneLevelAlwaysEmitted | log.h:145-147 | a call at level NONE passes every threshold, NONE included, and is printed as one line with letter I |
| Levels.LetterOf | log.h:131-137 | ERROR, WARN, DEBUG and VERBOSE get E, W, D and V, and exactly NONE and INFO fall through to I |
| Levels.LevelOf | log.h:151-155 | the level each letter's branch logs at is never NONE and maps back to the same letter |
| Levels.DispatchRoundTrip | log.h:131-137 | dispatch keeps every level except NONE, which is logged as INFO |
| Levels.LetterChar | log.h:127 | the letter printed at the head of a line is one of E, W, I, D, V |
| Levels.ColorCode | log.h:102-116 | each letter's colour is a two-digit `3x` ANSI foreground code |
| Levels.ColorOn | log.h:109-124 | with colours on, the prefix is `ESC [ 0 ;`, the letter's code and `m` (7 characters); with colours off it is empty |
| Levels.ColorOff | log.h:111-123 | the reset is 4 characters with colours on and empty with colours off |
| Levels.ColorsDistinct | log.h:112-116 | two letters share a colour escape only if they are the same letter |
| Levels.Label | log.h:127 | the label `#letter " [%s] %s: "` is 7 characters longer than the timestamp and tag together and starts with the letter |
| Levels.FormatLine | log.h:127 | a `LOG_SYSTEM_TIME_FORMAT` line is 8 characters plus timestamp, tag and message, plus 11 with colours on, whatever the letter |
| Levels.LabelFields | log.h:127 | the label is the letter, `" ["`, the timestamp, `"] "`, the tag and `": "`, at these exact offsets |
| Levels.LineFields | log.h:127 | a line is the colour prefix, the label, the message, then the reset and a newline, at these exact offsets |
| Levels.ColorsOnlyWrap | log.h:117-127 | turning colours on only adds the escape in front and the reset before the newline; the rest of the line is unchanged |
| Levels.LogLevel | log.h:131-137 | `LOG_LEVEL` prints one line whose length does not depend on the level: 8 characters plus timestamp, tag and message, plus 11 with colours on |
| Levels.LogLevelLocal | log.h:145-147 | exactly one line when the threshold admits the level, none otherwise; the line follows the template with the level's letter |
| Levels.LogMacro | log.h:151-155 | `LOGx` emits at most one line, emits iff the threshold admits x's level, emits nothing under NONE, and the line carries letter x |
| Levels.ShippedEmitsEverything | log.h:78-83 | with the shipped configuration (`Config` holding `CONFIG_LOG_LEVEL` and `CONFIG_LOG_COLORS`, at `Shipped` = VERBOSE, colours on) every `LOGx` emits its coloured line |
| Bytes.HexDigit | log.c:79 | `%x` writes a lowercase hexadecimal digit |
| Bytes.DigitRoundTrip | log.c:79 | a written digit reads back as its value |
| Bytes.Hex2 | log.c:79 | `%02x` of a byte is exactly two lowercase hex digits |
| Bytes.Hex2RoundTrip | log.c:79 | the two digits of `%02x` read back as the byte |
| Bytes.ByteChar | log.c:109 | `%c` writes the character whose code is the byte |
| Bytes.IsPrint | log.c:155 | C-locale `isprint` is 0x20..0x7E, so a printable byte is never the terminator |
| Bytes.CString | log.c:81 | `%s` reads a prefix of the buffer that holds no NUL and stops only at a NUL or the buffer's end |
| Bytes.CStringAt | log.c:78-81 | a buffer whose first NUL is at m reads as its first m characters |
| Bytes.CStringStopsAtNul | log.c:108-111 | whatever follows a NUL in the buffer is never read |
| Chunking.LineLength | log.c:69-73 | `bytes_cur_line` is 16 while more than 16 bytes remain and the remainder otherwise; it is never 0 while bytes remain |
| Chunking.LineCount | log.c:68-84 | the number of passes is 0 exactly for an empty buffer, and otherwise the least n with 16 n reaching the length |
| Chunking.Chunks | log.c:68-84 | the runs the `do/while` visits, each `bytes_cur_line` bytes taken off the front; its properties are stated by ChunkCount, ChunkAt and ChunksCoverBuffer |
| Chunking.LineExists | log.c:68-84 | line k exists exactly when byte 16 k does |
| Chunking.ChunkCount | log.c:68-84 | a buffer of N bytes gives N / 16 rounded up runs, and none exactly when it is empty |
| Chunking.ChunkAt | log.c:68-84 | run k is the bytes from 16 k, 16 of them or what is left; no run is empty and every run but the last is full |
| Chunking.RunAtOffset | log.c:75-84 | at offset 16 k the loop takes run k, and stops after it exactly when it is the last run |
| Chunking.ChunksCoverBuffer | log.c:82-83 | the runs laid end to end give back the buffer: no gap, no overlap, in order |
| Render.HexLine | log.c:78-80 | the hex line of a run is three characters per byte |
| Render.HexLineAt | log.c:78-80 | byte j of the run is at characters 3 j to 3 j + 2: its two digits and a blank |
| Render.HexLineHasNoNul | log.c:79-81 | the hex line holds no terminator, so `%s` prints all of it |
| Render.HexLineRoundTrip | log.c:78-80 | parsing the hex line back gives the run |
| Render.HexLineOfNola | log.c:78-81 | the bytes of "nola" render as `6e 6f 6c 61 ` |
| Render.Chars | log.c:108-110 | `%c` writes one character per byte, with the byte's code |
| Render.CharLine | log.c:108-111 | what `%s` prints of the char buffer is no longer than the run and holds no NUL |
| Render.CharLineIsPrefixBeforeZero | log.c:108-111 | the char line is the run's characters up to the first zero byte, byte for byte; other bytes pass through raw |
| Render.CharLineOfNolila | log.h:56-59 | "nolila" and ten zero bytes print as `nolila`; sixteen zero bytes print as an empty message |
| Render.Column | log.c:147-151 | every hexdump column is three characters wide |
| Render.StartsGroup | log.c:144 | among the sixteen columns, `(i & 7) == 0` holds exactly for columns 0 and 8 |
| Render.HexColumns | log.c:143-152 | after i passes the hex section is 3 i characters plus one blank per group started |
| Render.HexColumnsLast | log.c:143-146 | pass i writes its column at position ColumnStart(i) |
| Render.HexColumnsGrow | log.c:143-152 | later passes only append to the hex section |
| Render.HexColumnsEnd | log.c:143-152 | pass j ends the section with column j at its fixed position |
| Render.HexColumnsAt | log.c:143-152 | column j stays at its fixed position after all later passes |
| Render.HexColumnsSeparators | log.c:144-146 | the group separators in front of columns 0 and 8 are blanks |
| Render.HexSection | log.c:142-152 | the sixteen-column loop writes 50 characters whatever the run's length |
| Render.HexSectionLayout | log.c:143-152 | the hex section is 50 characters whatever the run's length, with each column at its fixed position and blanks before both groups |
| Render.Shown | log.c:155-159 | a gutter character is printable ASCII: the byte itself if `isprint`, `.` otherwise |
| Render.GutterText | log.c:154-160 | the gutter holds one character per byte of the run |
| Render.GutterTextAt | log.c:154-160 | byte j shows as character j of the gutter |
| Render.GutterLayout | log.c:153-161 | the gutter is `"  |"`, one shown character per byte, then `"|"` |
| Render.Gutter | log.c:153-161 | the gutter is one character per byte plus 4, opening with `"  |"` and closing with `"|"` |
| Render.HexdumpLine | log.c:140-161 | the text built in `hd_buffer` for one run is 55 characters longer than the address plus one per byte |
| Render.HexColumnsHaveNoNul | log.c:143-152 | no pass of the column loop writes a NUL |
| Render.HexdumpLineHasNoNul | log.c:140-163 | a hexdump line whose address has no NUL has none itself, so `%s` of `hd_buffer` prints the whole line |
| Render.HexdumpLineAddress | log.c:142-161 | a hexdump line starts with the address and is 55 characters longer than the address plus one per byte |
| Render.HexdumpLineColumn | log.c:142-152 | column j sits at a fixed offset after the address: `" %02x"` of byte j while the run lasts, three blanks after it |
| Render.HexdumpLineGutter | log.c:153-161 | the gutter opens at the same column whatever the run's length, shows each byte, and closes the line |
| Render.HexdumpLineFits | log.c:126-127 | a line and its NUL fit `hd_buffer` exactly when address and run take at most 26 characters, so always with a 10-character address |
| Trace.TraceStep | log.c:68-84 | one pass of a dumper's loop extends a trace that follows DumpTrace by the next run's line, and the loop ends exactly when the trace is complete |
| Trace.Message | log.c:57-167 | the message of run k in each dumper: three characters per byte for the hex dump, at most one per byte for the char dump, the hexdump line with address start + 16 k |
| Trace.DumpTrace | log.c:57-167 | the specification each dumper is proved to meet: line k is `LOG_LEVEL` at the dumper's level of run k's message, stamped with clock reading k; DumpTraceShape states its shape |
| Trace.DumpTraceShape | log.c:57-167 | a dumper sends no line exactly for an empty buffer, N / 16 rounded up lines otherwise, line k rendering bytes 16 k onward with clock reading k |
| Trace.HexdumpTraceLine | log.c:142-165 | hexdump line k shows the address start + 16 k and the columns and gutter of run k |
| Trace.HexDumpOfNola | log.c:78-81 | the hex dump of "nola" is one line with message `6e 6f 6c 61 ` |
| Dumpers.LogBufferHex | log.c:57-85 | the hex dumper sends exactly DumpTrace of the buffer in hex style |
| Dumpers.LogBufferChar | log.c:87-115 | the char dumper sends exactly DumpTrace of the buffer in char style |
| Dumpers.LogBufferHexdump | log.c:117-167 | the hexdump sends exactly DumpTrace of the buffer in hexdump style, addresses counted from start |
| Dumpers.FormatHex | log.c:77-80 | after the `sprintf` loop `hex_buffer` holds the run's hex line, a NUL at 3 n and the older bytes behind it untouched, and `%s` reads exactly the hex line, so a longer earlier run leaks nothing |
| Dumpers.FormatChars | log.c:107-111 | after the `%c` loop `char_buffer` holds the run's characters, a NUL at n and the older bytes behind it untouched, and `%s` reads exactly the char line |
| Dumpers.HexdumpRow | log.c:140-161 | the cursor writes of one pass build exactly the run's hexdump line |
| Dumpers.AppendColumns | log.c:143-152 | the column loop appends exactly the 50-character hex section |
| Dumpers.AppendGutter | log.c:153-161 | the gutter loop appends exactly the gutter |
| Dumpers.BufferHexLevel | log.h:168-173 | the hex dump runs iff the threshold admits the level; otherwise nothing is sent |
| Dumpers.BufferCharLevel | log.h:184-189 | the char dump runs iff the threshold admits the level; otherwise nothing is sent |
| Dumpers.BufferHexdump | log.h:207-212 | the hexdump runs iff the threshold admits the level; otherwise nothing is sent |
| Dumpers.BufferHex | log.h:224-229 | the hex dump at INFO runs iff the threshold admits INFO |
| Dumpers.BufferChar | log.h:241-246 | the char dump at INFO runs iff the threshold admits INFO |

## Left out

- The sink `s_log_print_func`, `vprintf` and the `va_list` plumbing of `log_write`/`log_writev` are not modelled. They are foreign I/O, so the lines are returned as a sequence instead. `log_write` ignores its level and tag arguments, so nothing is lost.
- `log_system_timestamp` and `HAL_GetTick` are not modelled. The clock is external, so the timestamp text is the parameter `clock`.
- The textual form of `%p` is platform-defined, so the model takes it as the parameter `addrText`.
- printf expansion of user format strings is not modelled. The message is taken as an already expanded string.
- Sign extension of `char` bytes of 0x80 and above is not modelled: bytes are unsigned, 0..255. Where `char` is signed, `%02x` would print such a byte as eight digits and `isprint` would see a negative value.
- `isprint` is fixed to the C locale (0x20..0x7E), because other locales are platform state.
- The fixed-size `hd_buffer` is modelled as a growing string, so the model does not capture an overflow; `Render.HexdumpLineFits` states when a line fits. The bounds of `hex_buffer` and `char_buffer` are checked on the arrays.
- The unused `temp_buffer` is not modelled, because no code reads or writes it.
- Truncation of a caller's length to the `uint16_t` parameter `buff_len` happens at the call site. The dumpers require a length of at most 0xFFFF instead.
- Interrupt and thread safety are left out. They are only documented, and there is no logic to model.
- The tag, the timestamp text and the `%p` text (`addrText`) are taken to be NUL-free C strings and are inserted whole. In C each goes through `%s`, which would stop at a NUL, but a C string cannot hold one, so no real input differs.
