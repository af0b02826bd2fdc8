/// log.c: the three buffer dumpers, each a loop that takes up to 16 bytes
/// off the front of the buffer, renders them into a char buffer and hands
/// the result to LOG_LEVEL; and the LOG_BUFFER_* macros of log.h that call
/// them only when the threshold admits the level.
///
/// The sink is modelled by the sequence of lines each call returns, in the
/// order they are written; `clock(k)` is the timestamp text the k-th line of
/// one call reads.
module Dumpers {
  import opened Bytes
  import opened Levels
  import opened Chunking
  import opened Render
  import opened Trace

  /// log_buffer_hex_internal: `"%02x "` per byte, written in place into
  /// `hexBuffer` at offset 3 i, one line per run of up to 16 bytes.
  method LogBufferHex(colors: bool, tag: string, buffer: seq<byte>, level: Level, clock: nat -> string)
    returns (trace: seq<string>)
    requires |buffer| <= MaxBufferLength
    ensures trace == DumpTrace(colors, level, tag, clock, HexStyle, buffer)
  {
    trace := [];
    if |buffer| == 0 {
      return;
    }
    ghost var spec := DumpTrace(colors, level, tag, clock, HexStyle, buffer);
    var hexBuffer := new char[3 * BytesPerLine + 1];
    var buffLen: nat := |buffer|;
    var offset: nat := 0;
    while buffLen != 0
      invariant offset + buffLen == |buffer|
      invariant buffLen != 0 ==> offset == BytesPerLine * |trace| && trace <= spec
      invariant buffLen == 0 ==> trace == spec
      decreases buffLen
    {
      var bytesCurLine := if buffLen > BytesPerLine then BytesPerLine else buffLen;
      var line := buffer[offset..offset + bytesCurLine];
      var msg := FormatHex(hexBuffer, line);
      assert msg == Message(HexStyle, |trace|, line);
      TraceStep(colors, level, tag, clock, HexStyle, buffer, offset, trace, line, msg);
      trace := trace + [LogLevel(colors, level, clock(|trace|), tag, msg)];
      offset := offset + bytesCurLine;
      buffLen := buffLen - bytesCurLine;
    }
  }

  /// log_buffer_char_internal: `"%c"` per byte, written in place into
  /// `charBuffer` at offset i; the line is what `%s` reads of it.
  method LogBufferChar(colors: bool, tag: string, buffer: seq<byte>, level: Level, clock: nat -> string)
    returns (trace: seq<string>)
    requires |buffer| <= MaxBufferLength
    ensures trace == DumpTrace(colors, level, tag, clock, CharStyle, buffer)
  {
    trace := [];
    if |buffer| == 0 {
      return;
    }
    ghost var spec := DumpTrace(colors, level, tag, clock, CharStyle, buffer);
    var charBuffer := new char[BytesPerLine + 1];
    var buffLen: nat := |buffer|;
    var offset: nat := 0;
    while buffLen != 0
      invariant offset + buffLen == |buffer|
      invariant buffLen != 0 ==> offset == BytesPerLine * |trace| && trace <= spec
      invariant buffLen == 0 ==> trace == spec
      decreases buffLen
    {
      var bytesCurLine := if buffLen > BytesPerLine then BytesPerLine else buffLen;
      var line := buffer[offset..offset + bytesCurLine];
      var msg := FormatChars(charBuffer, line);
      assert msg == Message(CharStyle, |trace|, line);
      TraceStep(colors, level, tag, clock, CharStyle, buffer, offset, trace, line, msg);
      trace := trace + [LogLevel(colors, level, clock(|trace|), tag, msg)];
      offset := offset + bytesCurLine;
      buffLen := buffLen - bytesCurLine;
    }
  }

  /// log_buffer_hexdump_internal: the address of the run, sixteen hex
  /// columns in two groups of eight and the ASCII gutter, appended through
  /// the cursor `hd` one `sprintf` at a time. Line k carries the address
  /// `start + 16 k`.
  method LogBufferHexdump(colors: bool, tag: string, buffer: seq<byte>, start: nat,
                          addrText: nat -> string, level: Level, clock: nat -> string)
    returns (trace: seq<string>)
    requires |buffer| <= MaxBufferLength
    ensures trace == DumpTrace(colors, level, tag, clock, HexdumpStyle(start, addrText), buffer)
  {
    trace := [];
    if |buffer| == 0 {
      return;
    }
    ghost var spec := DumpTrace(colors, level, tag, clock, HexdumpStyle(start, addrText), buffer);
    var buffLen: nat := |buffer|;
    var offset: nat := 0;
    while buffLen != 0
      invariant offset + buffLen == |buffer|
      invariant buffLen != 0 ==> offset == BytesPerLine * |trace| && trace <= spec
      invariant buffLen == 0 ==> trace == spec
      decreases buffLen
    {
      var bytesCurLine := if buffLen > BytesPerLine then BytesPerLine else buffLen;
      var line := buffer[offset..offset + bytesCurLine];
      var hd := HexdumpRow(addrText(start + offset), line);
      assert hd == Message(HexdumpStyle(start, addrText), |trace|, line);
      TraceStep(colors, level, tag, clock, HexdumpStyle(start, addrText), buffer, offset, trace, line, hd);
      trace := trace + [LogLevel(colors, level, clock(|trace|), tag, hd)];
      offset := offset + bytesCurLine;
      buffLen := buffLen - bytesCurLine;
    }
  }

  /// The inner loop of log_buffer_hex_internal: `"%02x "` for byte i at
  /// offset 3 i of `hexBuffer`, each `sprintf` leaving its NUL after the
  /// three characters it wrote. What `%s` then reads of the buffer is the
  /// hex line of the run, whatever an earlier, longer run left behind.
  method FormatHex(hexBuffer: array<char>, line: seq<byte>) returns (msg: string)
    requires 0 < |line| <= BytesPerLine && hexBuffer.Length == 3 * BytesPerLine + 1
    modifies hexBuffer
    ensures hexBuffer[..3 * |line|] == HexLine(line) && hexBuffer[3 * |line|] == NUL
    ensures hexBuffer[3 * |line| + 1..] == old(hexBuffer[3 * |line| + 1..])
    ensures msg == CString(hexBuffer[..])
    ensures msg == HexLine(line)
  {
    var i := 0;
    while i < |line|
      invariant 0 <= i <= |line|
      invariant forall j :: 0 <= j < 3 * i ==> hexBuffer[j] == HexLine(line[..i])[j]
      invariant i > 0 ==> hexBuffer[3 * i] == NUL
      invariant forall j :: 3 * i < j < hexBuffer.Length ==> hexBuffer[j] == old(hexBuffer[j])
    {
      assert line[..i + 1][..i] == line[..i];
      var digits := Hex2(line[i]);
      hexBuffer[3 * i] := digits[0];
      hexBuffer[3 * i + 1] := digits[1];
      hexBuffer[3 * i + 2] := ' ';
      hexBuffer[3 * i + 3] := NUL;
      i := i + 1;
    }
    assert line[..|line|] == line;
    HexLineHasNoNul(line);
    assert hexBuffer[..][..3 * |line|] == HexLine(line);
    CStringAt(hexBuffer[..], 3 * |line|);
    msg := CString(hexBuffer[..]);
  }

  /// The inner loop of log_buffer_char_internal: `"%c"` for byte i at
  /// offset i of `charBuffer`, followed by its NUL. What `%s` then reads
  /// of the buffer stops at the first zero byte of the run.
  method FormatChars(charBuffer: array<char>, line: seq<byte>) returns (msg: string)
    requires 0 < |line| <= BytesPerLine && charBuffer.Length == BytesPerLine + 1
    modifies charBuffer
    ensures charBuffer[..|line|] == Chars(line) && charBuffer[|line|] == NUL
    ensures charBuffer[|line| + 1..] == old(charBuffer[|line| + 1..])
    ensures msg == CString(charBuffer[..])
    ensures msg == CharLine(line)
  {
    var i := 0;
    while i < |line|
      invariant 0 <= i <= |line|
      invariant forall j :: 0 <= j < i ==> charBuffer[j] == ByteChar(line[j])
      invariant i > 0 ==> charBuffer[i] == NUL
      invariant forall j :: i < j < charBuffer.Length ==> charBuffer[j] == old(charBuffer[j])
    {
      charBuffer[i] := ByteChar(line[i]);
      charBuffer[i + 1] := NUL;
      i := i + 1;
    }
    assert charBuffer[..][..|line|] == Chars(line);
    CStringStopsAtNul(charBuffer[..], |line|);
    msg := CString(charBuffer[..]);
  }

  /// The body of log_buffer_hexdump_internal's loop for one run: the
  /// address and a space, then the hex columns, then the gutter, each
  /// appended at the cursor.
  method HexdumpRow(addr: string, line: seq<byte>) returns (hd: string)
    requires |line| <= BytesPerLine
    ensures hd == HexdumpLine(addr, line)
  {
    hd := addr + " ";
    hd := AppendColumns(hd, line);
    hd := AppendGutter(hd, line);
  }

  /// The first inner loop of the hexdump: for each of the sixteen columns,
  /// a blank before each group of eight, then `" %02x"` for a byte of the
  /// run or three blanks past its end.
  method AppendColumns(hd0: string, line: seq<byte>) returns (hd: string)
    requires |line| <= BytesPerLine
    ensures hd == hd0 + HexSection(line)
  {
    hd := hd0;
    var i := 0;
    while i < BytesPerLine
      invariant 0 <= i <= BytesPerLine
      invariant hd == hd0 + HexColumns(line, i)
    {
      ghost var before := hd;
      if StartsGroup(i) {
        hd := hd + " ";
      }
      if i < |line| {
        hd := hd + (" " + Hex2(line[i]));
      } else {
        hd := hd + "   ";
      }
      ghost var sep: string := if StartsGroup(i) then " " else "";
      assert hd == before + sep + Column(line, i);
      AppendThree(hd0, HexColumns(line, i), sep, Column(line, i));
      i := i + 1;
    }
  }

  /// The gutter: `"  |"`, each byte of the run as itself when printable and
  /// as `.` otherwise, then `"|"`.
  method AppendGutter(hd0: string, line: seq<byte>) returns (hd: string)
    ensures hd == hd0 + Gutter(line)
  {
    hd := hd0 + "  |";
    var i := 0;
    while i < |line|
      invariant 0 <= i <= |line|
      invariant hd == hd0 + "  |" + GutterText(line[..i])
    {
      assert line[..i + 1][..i] == line[..i];
      if IsPrint(line[i]) {
        hd := hd + [ByteChar(line[i])];
      } else {
        hd := hd + ".";
      }
      i := i + 1;
    }
    hd := hd + "|";
    assert line[..|line|] == line;
  }

  /// Appending at a cursor one piece after another builds the pieces'
  /// concatenation. Only associativity, which the solver knows; the column
  /// loop calls it to hand over the regrouping directly, which keeps that
  /// loop's proof well inside its resource budget.
  lemma AppendThree(a: string, b: string, c: string, d: string)
    ensures a + b + c + d == a + (b + c + d)
  {
  }

  /// LOG_BUFFER_HEX_LEVEL: the hex dumper, if the threshold admits the level.
  method BufferHexLevel(cfg: Config, tag: string, buffer: seq<byte>, level: Level, clock: nat -> string)
    returns (trace: seq<string>)
    requires |buffer| <= MaxBufferLength
    ensures Admits(cfg.threshold, level) ==> trace == DumpTrace(cfg.colors, level, tag, clock, HexStyle, buffer)
    ensures !Admits(cfg.threshold, level) ==> trace == []
  {
    trace := [];
    if Admits(cfg.threshold, level) {
      trace := LogBufferHex(cfg.colors, tag, buffer, level, clock);
    }
  }

  /// LOG_BUFFER_CHAR_LEVEL: the char dumper, if the threshold admits the level.
  method BufferCharLevel(cfg: Config, tag: string, buffer: seq<byte>, level: Level, clock: nat -> string)
    returns (trace: seq<string>)
    requires |buffer| <= MaxBufferLength
    ensures Admits(cfg.threshold, level) ==> trace == DumpTrace(cfg.colors, level, tag, clock, CharStyle, buffer)
    ensures !Admits(cfg.threshold, level) ==> trace == []
  {
    trace := [];
    if Admits(cfg.threshold, level) {
      trace := LogBufferChar(cfg.colors, tag, buffer, level, clock);
    }
  }

  /// LOG_BUFFER_HEXDUMP: the hexdump, if the threshold admits the level.
  method BufferHexdump(cfg: Config, tag: string, buffer: seq<byte>, start: nat,
                       addrText: nat -> string, level: Level, clock: nat -> string)
    returns (trace: seq<string>)
    requires |buffer| <= MaxBufferLength
    ensures Admits(cfg.threshold, level) ==>
              trace == DumpTrace(cfg.colors, level, tag, clock, HexdumpStyle(start, addrText), buffer)
    ensures !Admits(cfg.threshold, level) ==> trace == []
  {
    trace := [];
    if Admits(cfg.threshold, level) {
      trace := LogBufferHexdump(cfg.colors, tag, buffer, start, addrText, level, clock);
    }
  }

  /// LOG_BUFFER_HEX: the hex dumper at INFO, if the threshold admits INFO.
  method BufferHex(cfg: Config, tag: string, buffer: seq<byte>, clock: nat -> string)
    returns (trace: seq<string>)
    requires |buffer| <= MaxBufferLength
    ensures Admits(cfg.threshold, Info) ==> trace == DumpTrace(cfg.colors, Info, tag, clock, HexStyle, buffer)
    ensures !Admits(cfg.threshold, Info) ==> trace == []
  {
    trace := [];
    if Admits(cfg.threshold, Info) {
      trace := BufferHexLevel(cfg, tag, buffer, Info, clock);
    }
  }

  /// LOG_BUFFER_CHAR: the char dumper at INFO, if the threshold admits INFO.
  method BufferChar(cfg: Config, tag: string, buffer: seq<byte>, clock: nat -> string)
    returns (trace: seq<string>)
    requires |buffer| <= MaxBufferLength
    ensures Admits(cfg.threshold, Info) ==> trace == DumpTrace(cfg.colors, Info, tag, clock, CharStyle, buffer)
    ensures !Admits(cfg.threshold, Info) ==> trace == []
  {
    trace := [];
    if Admits(cfg.threshold, Info) {
      trace := BufferCharLevel(cfg, tag, buffer, Info, clock);
    }
  }
}
