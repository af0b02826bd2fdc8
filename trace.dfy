/// What a buffer dumper of log.c hands to the sink: one LOG_LEVEL line per
/// run of the buffer, in buffer order.
module Trace {
  import opened Bytes
  import opened Levels
  import opened Chunking
  import opened Render

  /// Which of the three dumpers renders the runs. The hexdump prints the
  /// address of each run, rendered by the platform's `%p` (`addrText`),
  /// counting from the buffer's start address.
  datatype Style =
    | HexStyle
    | CharStyle
    | HexdumpStyle(start: nat, addrText: nat -> string)

  /// The message of the line for run `k`.
  function Message(style: Style, k: nat, run: seq<byte>): (m: string)
    ensures style.HexStyle? ==> |m| == 3 * |run|
    ensures style.CharStyle? ==> |m| <= |run|
  {
    match style
    case HexStyle => HexLine(run)
    case CharStyle => CharLine(run)
    case HexdumpStyle(start, addrText) => HexdumpLine(addrText(start + BytesPerLine * k), run)
  }

  /// The lines a dumper sends to the sink for `data`: for run k, the
  /// LOG_LEVEL line at `level` stamped with the k-th reading of the clock.
  function DumpTrace(colors: bool, level: Level, tag: string, clock: nat -> string,
                     style: Style, data: seq<byte>): seq<string>
  {
    var runs := Chunks(data);
    seq(|runs|, k requires 0 <= k < |runs| =>
      LogLevel(colors, level, clock(k), tag, Message(style, k, runs[k])))
  }

  /// One pass of a dumper's loop, entered with `offset` at line k of a
  /// trace that so far follows DumpTrace and taking the next `run` of
  /// LineLength bytes: appending the line for that run keeps the trace
  /// following DumpTrace, and the loop ends exactly when the trace is
  /// complete.
  lemma TraceStep(colors: bool, level: Level, tag: string, clock: nat -> string,
                  style: Style, data: seq<byte>, offset: nat, trace: seq<string>,
                  run: seq<byte>, msg: string)
    requires offset < |data| && offset == BytesPerLine * |trace|
    requires trace <= DumpTrace(colors, level, tag, clock, style, data)
    requires |run| == LineLength(|data| - offset) && run == data[offset..offset + |run|]
    requires msg == Message(style, |trace|, run)
    ensures var spec := DumpTrace(colors, level, tag, clock, style, data);
            var next := trace + [LogLevel(colors, level, clock(|trace|), tag, msg)];
            var offset' := offset + |run|;
            next <= spec &&
            (offset' == |data| ==> next == spec) &&
            (offset' < |data| ==> offset' == BytesPerLine * |next|)
  {
    var spec := DumpTrace(colors, level, tag, clock, style, data);
    var k := |trace|;
    RunAtOffset(data, offset, k);
    assert Chunks(data)[k] == run;
    assert spec[k] == LogLevel(colors, level, clock(k), tag, msg);
    PrefixExtend(trace, spec, spec[k]);
  }

  /// A prefix of `s` followed by the element of `s` that comes next is
  /// still a prefix of `s`.
  lemma PrefixExtend<T>(t: seq<T>, s: seq<T>, x: T)
    requires t <= s && |t| < |s| && s[|t|] == x
    ensures t + [x] <= s
  {
    assert s[..|t| + 1] == t + [x];
  }

  /// A dumper sends nothing exactly when the buffer is empty; otherwise it
  /// sends |data| / 16 lines rounded up, line k covering bytes 16 k up to
  /// 16 k + 16 or the end, under the letter of the level.
  lemma DumpTraceShape(colors: bool, level: Level, tag: string, clock: nat -> string,
                       style: Style, data: seq<byte>)
    ensures var t := DumpTrace(colors, level, tag, clock, style, data);
            (t == [] <==> data == []) &&
            |t| == LineCount(|data|) &&
            forall k :: 0 <= k < |t| ==>
              var from := BytesPerLine * k;
              from < |data| &&
              t[k] == FormatLine(colors, LetterOf(level), clock(k), tag,
                                 Message(style, k, data[from..from + LineLength(|data| - from)]))
  {
    ChunkCount(data);
    forall k | 0 <= k < LineCount(|data|)
      ensures BytesPerLine * k < |data|
      ensures Chunks(data)[k] == data[BytesPerLine * k..BytesPerLine * k + LineLength(|data| - BytesPerLine * k)]
    {
      ChunkAt(data, k);
    }
  }

  /// Hexdump line k shows the address of its first byte, 16 k past the
  /// start of the buffer, then the columns and gutter of that run.
  lemma HexdumpTraceLine(colors: bool, level: Level, tag: string, clock: nat -> string,
                         start: nat, addrText: nat -> string, data: seq<byte>, k: nat)
    requires k < LineCount(|data|)
    ensures var t := DumpTrace(colors, level, tag, clock, HexdumpStyle(start, addrText), data);
            var from := BytesPerLine * k;
            k < |t| && from < |data| &&
            t[k] == FormatLine(colors, LetterOf(level), clock(k), tag,
                               HexdumpLine(addrText(start + from), data[from..from + LineLength(|data| - from)]))
  {
    ChunkCount(data);
    ChunkAt(data, k);
  }

  /// The hex dump of the four bytes "nola" is the single line `6e 6f 6c 61 `.
  lemma HexDumpOfNola(colors: bool, level: Level, tag: string, clock: nat -> string)
    ensures DumpTrace(colors, level, tag, clock, HexStyle, [0x6E, 0x6F, 0x6C, 0x61])
         == [LogLevel(colors, level, clock(0), tag, "6e 6f 6c 61 ")]
  {
    var data: seq<byte> := [0x6E, 0x6F, 0x6C, 0x61];
    assert Chunks(data) == [data] by {
      assert data[..4] == data && data[4..] == [];
    }
    HexLineOfNola();
  }
}
