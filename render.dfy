/// The text each dumper in log.c makes of one run of at most 16 bytes:
/// the hex line, the char line and the hexdump line.
module Render {
  import opened Bytes
  import opened Chunking

  // ---------------------------------------------------------------------
  // Hex line (log_buffer_hex_internal)

  /// `"%02x "` for every byte of the run, in order.
  function HexLine(run: seq<byte>): (s: string)
    ensures |s| == 3 * |run|
  {
    if run == [] then "" else HexLine(run[..|run| - 1]) + Hex2(run[|run| - 1]) + " "
  }

  /// Byte `j` of the run is rendered at characters 3 j to 3 j + 2 of the
  /// hex line, so a short last run leaves nothing behind it.
  lemma {:induction false} HexLineAt(run: seq<byte>, j: nat)
    requires j < |run|
    ensures HexLine(run)[3 * j..3 * j + 3] == Hex2(run[j]) + " "
    decreases |run|
  {
    var init := run[..|run| - 1];
    var s := HexLine(run);
    assert s == HexLine(init) + (Hex2(run[|run| - 1]) + " ");
    if j < |run| - 1 {
      HexLineAt(init, j);
      assert s[..|HexLine(init)|] == HexLine(init);
    }
  }

  /// The hex line never holds a terminator, so `%s` prints all of it.
  lemma HexLineHasNoNul(run: seq<byte>)
    ensures NUL !in HexLine(run)
  {
    var s := HexLine(run);
    forall i | 0 <= i < |s| ensures s[i] != NUL {
      var j := i / 3;
      HexLineAt(run, j);
      assert s[i] == (Hex2(run[j]) + " ")[i - 3 * j];
    }
  }

  /// Reads a hex line back: one byte per three characters.
  function ParseHexLine(s: string): (run: seq<byte>)
    ensures |run| == |s| / 3
    decreases |s|
  {
    if |s| < 3 then []
    else ParseHexLine(s[..|s| - 3]) + [ByteOfHex2(s[|s| - 3], s[|s| - 2])]
  }

  /// The hex line loses nothing: parsing it gives back the run.
  lemma {:induction false} HexLineRoundTrip(run: seq<byte>)
    ensures ParseHexLine(HexLine(run)) == run
    decreases |run|
  {
    if run != [] {
      var init := run[..|run| - 1];
      var last := run[|run| - 1];
      var s := HexLine(run);
      assert s == HexLine(init) + (Hex2(last) + " ");
      assert s[..|s| - 3] == HexLine(init);
      assert s[|s| - 3] == Hex2(last)[0] && s[|s| - 2] == Hex2(last)[1];
      Hex2RoundTrip(last);
      HexLineRoundTrip(init);
      assert ParseHexLine(s) == init + [last];
      assert run == init + [last];
    }
  }

  /// The four bytes "nola" render as `6e 6f 6c 61 `, trailing blank included.
  lemma HexLineOfNola()
    ensures HexLine([0x6E, 0x6F, 0x6C, 0x61]) == "6e 6f 6c 61 "
  {
    var data: seq<byte> := [0x6E, 0x6F, 0x6C, 0x61];
    assert Hex2(0x6E) == "6e" && Hex2(0x6F) == "6f" && Hex2(0x6C) == "6c" && Hex2(0x61) == "61";
    assert data[..3] == [0x6E, 0x6F, 0x6C] && data[..3][..2] == [0x6E, 0x6F];
    assert data[..3][..2][..1] == [0x6E] && data[..3][..2][..1][..0] == [];
    assert HexLine([0x6E]) == "6e ";
    assert HexLine([0x6E, 0x6F]) == "6e 6f ";
    assert HexLine([0x6E, 0x6F, 0x6C]) == "6e 6f 6c ";
  }

  // ---------------------------------------------------------------------
  // Char line (log_buffer_char_internal)

  /// The run's bytes as the characters `%c` writes, one per byte.
  function Chars(run: seq<byte>): (s: string)
    ensures |s| == |run|
    ensures forall j :: 0 <= j < |run| ==> s[j] as int == run[j]
  {
    seq(|run|, j requires 0 <= j < |run| => ByteChar(run[j]))
  }

  /// What `%s` prints of the char buffer: the run's characters up to its
  /// end or its first zero byte, whichever comes first.
  function CharLine(run: seq<byte>): (s: string)
    ensures |s| <= |run| && NUL !in s
  {
    CString(Chars(run))
  }

  /// The char line is the longest prefix of the run without a zero byte,
  /// byte for byte; non-printable bytes other than zero pass through raw.
  lemma CharLineIsPrefixBeforeZero(run: seq<byte>)
    ensures var line := CharLine(run);
            |line| <= |run| &&
            (forall j :: 0 <= j < |line| ==> run[j] != 0 && line[j] as int == run[j]) &&
            (|line| < |run| ==> run[|line|] == 0)
  {
    var line := CharLine(run);
    assert line == Chars(run)[..|line|];
    forall j | 0 <= j < |line| ensures run[j] != 0 {
      assert line[j] in line;
    }
  }

  /// The char dump of "nolila" followed by ten zero bytes is "nolila", and
  /// a run of zero bytes prints as an empty message.
  lemma CharLineOfNolila()
    ensures CharLine([0x6E, 0x6F, 0x6C, 0x69, 0x6C, 0x61, 0, 0, 0, 0, 0, 0, 0, 0, 0, 0]) == "nolila"
    ensures CharLine([0, 0, 0, 0, 0, 0, 0, 0, 0, 0, 0, 0, 0, 0, 0, 0]) == ""
  {
    var run: seq<byte> := [0x6E, 0x6F, 0x6C, 0x69, 0x6C, 0x61, 0, 0, 0, 0, 0, 0, 0, 0, 0, 0];
    var cs := Chars(run);
    assert cs[6] == NUL;
    assert cs[..6] == "nolila";
    CStringAt(cs, 6);
    var zeros: seq<byte> := [0, 0, 0, 0, 0, 0, 0, 0, 0, 0, 0, 0, 0, 0, 0, 0];
    assert Chars(zeros)[0] == NUL;
  }

  // ---------------------------------------------------------------------
  // Hexdump line (log_buffer_hexdump_internal)

  /// Column `i` of the hex section: `" %02x"` while the run lasts, three
  /// blanks after it.
  function Column(run: seq<byte>, i: nat): (s: string)
    ensures |s| == 3
  {
    if i < |run| then " " + Hex2(run[i]) else "   "
  }

  /// `(i & 7) == 0`: column `i` opens a group of eight.
  predicate StartsGroup(i: nat)
    ensures i < BytesPerLine ==> (StartsGroup(i) <==> i == 0 || i == 8)
  {
    i % 8 == 0
  }

  /// The hex section after `i` passes of its loop: an extra blank in front
  /// of columns 0 and 8, then the column itself.
  function HexColumns(run: seq<byte>, i: nat): (s: string)
    requires i <= BytesPerLine
    ensures |s| == 3 * i + (if i == 0 then 0 else if i <= 8 then 1 else 2)
  {
    if i == 0 then ""
    else HexColumns(run, i - 1) + (if StartsGroup(i - 1) then " " else "") + Column(run, i - 1)
  }

  /// The position of column `i` within the hex section.
  function ColumnStart(i: nat): nat
  {
    3 * i + (if i < 8 then 1 else 2)
  }

  /// Pass `i` writes its column at position ColumnStart(i).
  lemma HexColumnsLast(run: seq<byte>, i: nat)
    requires i < BytesPerLine
    ensures |HexColumns(run, i) + (if StartsGroup(i) then " " else "")| == ColumnStart(i)
  {
    assert StartsGroup(i) <==> i == 0 || i == 8;
  }

  /// A later pass only appends: the text after pass `j` stays in front.
  lemma {:induction false} HexColumnsGrow(run: seq<byte>, j: nat, i: nat)
    requires j <= i <= BytesPerLine
    ensures HexColumns(run, j) <= HexColumns(run, i)
    decreases i
  {
    if j < i {
      HexColumnsGrow(run, j, i - 1);
      var prev := HexColumns(run, i - 1);
      var sep: string := if StartsGroup(i - 1) then " " else "";
      assert HexColumns(run, i) == prev + (sep + Column(run, i - 1));
    }
  }

  /// Column `j` sits at its fixed position once its pass is done.
  lemma HexColumnsAt(run: seq<byte>, i: nat, j: nat)
    requires j < i <= BytesPerLine
    ensures HexColumns(run, i)[ColumnStart(j)..ColumnStart(j) + 3] == Column(run, j)
  {
    var at := ColumnStart(j);
    var done := HexColumns(run, j + 1);
    assert done[at..at + 3] == Column(run, j) by {
      HexColumnsEnd(run, j);
    }
    assert done <= HexColumns(run, i) by {
      HexColumnsGrow(run, j + 1, i);
    }
    PrefixSlice(done, HexColumns(run, i), at, at + 3);
  }

  /// Pass `j` ends the text with column `j`, at its fixed position.
  lemma HexColumnsEnd(run: seq<byte>, j: nat)
    requires j < BytesPerLine
    ensures HexColumns(run, j + 1)[ColumnStart(j)..ColumnStart(j) + 3] == Column(run, j)
  {
    var head := HexColumns(run, j) + (if StartsGroup(j) then " " else "");
    HexColumnsStep(run, j + 1);
    HexColumnsLast(run, j);
    SliceInMiddle(head, Column(run, j), [], 0, 3);
    assert head + Column(run, j) + [] == HexColumns(run, j + 1);
  }

  /// One pass of the column loop, unfolded.
  lemma HexColumnsStep(run: seq<byte>, i: nat)
    requires 0 < i <= BytesPerLine
    ensures HexColumns(run, i)
         == HexColumns(run, i - 1) + (if StartsGroup(i - 1) then " " else "") + Column(run, i - 1)
  {
  }

  /// A slice within a prefix is the same slice of the whole.
  lemma PrefixSlice<T>(p: seq<T>, s: seq<T>, lo: nat, hi: nat)
    requires p <= s && lo <= hi <= |p|
    ensures s[lo..hi] == p[lo..hi]
  {
    assert p == s[..|p|];
  }

  /// The two group separators, in front of columns 0 and 8, are blanks.
  lemma {:induction false} HexColumnsSeparators(run: seq<byte>, i: nat)
    requires i <= BytesPerLine
    ensures i > 0 ==> HexColumns(run, i)[0] == ' '
    ensures i > 8 ==> HexColumns(run, i)[25] == ' '
    decreases i
  {
    if i > 0 {
      HexColumnsSeparators(run, i - 1);
      var prev := HexColumns(run, i - 1);
      var sep: string := if StartsGroup(i - 1) then " " else "";
      assert HexColumns(run, i) == prev + (sep + Column(run, i - 1));
      if i == 9 {
        assert |prev| == 25;
      }
    }
  }

  /// The whole hex section: all sixteen columns whatever the run's length.
  function HexSection(run: seq<byte>): (s: string)
    ensures |s| == 50
  {
    HexColumns(run, BytesPerLine)
  }

  /// The hex section is always 50 characters wide, whatever the run's
  /// length, with every column at its fixed position and blanks in front
  /// of the two groups.
  lemma HexSectionLayout(run: seq<byte>)
    requires |run| <= BytesPerLine
    ensures |HexSection(run)| == 50
    ensures forall j :: 0 <= j < BytesPerLine ==>
              HexSection(run)[ColumnStart(j)..ColumnStart(j) + 3] == Column(run, j)
    ensures HexSection(run)[0] == ' ' && HexSection(run)[25] == ' '
  {
    HexColumnsSeparators(run, BytesPerLine);
    forall j | 0 <= j < BytesPerLine
      ensures HexSection(run)[ColumnStart(j)..ColumnStart(j) + 3] == Column(run, j)
    {
      HexColumnsAt(run, BytesPerLine, j);
    }
  }

  /// How a byte shows in the gutter: itself if printable, `.` otherwise.
  function Shown(b: byte): (ch: char)
    ensures ' ' <= ch <= '~'
    ensures IsPrint(b) ==> ch as int == b
    ensures !IsPrint(b) ==> ch == '.'
  {
    if IsPrint(b) then ByteChar(b) else '.'
  }

  /// The characters between the gutter's bars, one per byte of the run.
  function GutterText(run: seq<byte>): (s: string)
    ensures |s| == |run|
  {
    if run == [] then "" else GutterText(run[..|run| - 1]) + [Shown(run[|run| - 1])]
  }

  /// Byte `j` of the run shows at character `j` of the gutter text.
  lemma {:induction false} GutterTextAt(run: seq<byte>, j: nat)
    requires j < |run|
    ensures GutterText(run)[j] == Shown(run[j])
    decreases |run|
  {
    if j < |run| - 1 {
      GutterTextAt(run[..|run| - 1], j);
    }
  }

  /// The ASCII gutter: `"  |"`, the shown characters, `"|"`.
  function Gutter(run: seq<byte>): (g: string)
    ensures |g| == |run| + 4 && g[..3] == "  |" && g[|g| - 1] == '|'
  {
    "  |" + GutterText(run) + "|"
  }

  /// One hexdump line: the rendered address, a blank, the hex section and
  /// the gutter.
  function HexdumpLine(addr: string, run: seq<byte>): (line: string)
    ensures |line| == |addr| + 55 + |run|
  {
    addr + " " + HexSection(run) + Gutter(run)
  }

  /// A hexdump line starts with the rendered address, and its length is
  /// that of the address plus 55 plus one per byte of the run.
  lemma HexdumpLineAddress(addr: string, run: seq<byte>)
    requires |run| <= BytesPerLine
    ensures var line := HexdumpLine(addr, run);
            |line| == |addr| + 55 + |run| &&
            line[..|addr|] == addr
  {
    var prefix := addr + " ";
    var hex := HexSection(run);
    var gut := Gutter(run);
    var line := prefix + hex + gut;
    assert HexdumpLine(addr, run) == line;
    assert |hex| == 50 && |gut| == |run| + 4;
    SliceInMiddle([], prefix, hex + gut, 0, |addr|);
    assert [] + prefix + (hex + gut) == line;
  }

  /// Column j of a hexdump line: after the address and a blank, at its
  /// fixed position (the byte while the run lasts, blanks after it).
  lemma HexdumpLineColumn(addr: string, run: seq<byte>, j: nat)
    requires |run| <= BytesPerLine && j < BytesPerLine
    ensures var line := HexdumpLine(addr, run);
            var at := |addr| + 1 + ColumnStart(j);
            at + 3 <= |line| &&
            line[at..at + 3] == Column(run, j) &&
            (j < |run| ==> line[at..at + 3] == " " + Hex2(run[j])) &&
            (j >= |run| ==> line[at..at + 3] == "   ")
  {
    var prefix := addr + " ";
    var hex := HexSection(run);
    var gut := Gutter(run);
    assert HexdumpLine(addr, run) == prefix + hex + gut;
    assert |hex| == 50;
    HexColumnsAt(run, BytesPerLine, j);
    SliceInMiddle(prefix, hex, gut, ColumnStart(j), ColumnStart(j) + 3);
  }

  /// The gutter of a hexdump line opens at the same column whatever the
  /// run's length, holds one shown character per byte, and closes the line.
  lemma HexdumpLineGutter(addr: string, run: seq<byte>)
    requires |run| <= BytesPerLine
    ensures var line := HexdumpLine(addr, run);
            var g := |addr| + 54;
            |line| == g + |run| + 1 &&
            line[g - 3..g] == "  |" &&
            (forall j :: 0 <= j < |run| ==> line[g + j] == Shown(run[j])) &&
            line[g + |run|] == '|'
  {
    var head := addr + " " + HexSection(run);
    var gut := Gutter(run);
    var line := head + gut;
    assert HexdumpLine(addr, run) == line;
    assert |HexSection(run)| == 50 by { HexSectionLayout(run); }
    GutterLayout(run);
    assert |head| == |addr| + 51;
    assert line[|head|..|head| + 3] == gut[..3];
    forall j | 0 <= j < |run| ensures line[|head| + 3 + j] == Shown(run[j]) {
      assert line[|head| + 3 + j] == gut[3 + j];
    }
    assert line[|head| + 3 + |run|] == gut[3 + |run|];
  }

  /// The size of `hd_buffer`, sized for a 10-character address.
  const HexdumpBufferSize: nat := 10 + 3 + BytesPerLine * 3 + 3 + BytesPerLine + 1 + 1

  /// A hexdump line and its terminator fit `hd_buffer` exactly when the
  /// address and the run together take at most 26 characters: every line
  /// fits when `%p` writes at most 10 characters (`0x` and eight digits, as
  /// on a 32-bit target), and a full run after a longer address does not.
  lemma HexdumpLineFits(addr: string, run: seq<byte>)
    requires |run| <= BytesPerLine
    ensures |HexdumpLine(addr, run)| + 1 <= HexdumpBufferSize <==> |addr| + |run| <= 26
    ensures |addr| <= 10 ==> |HexdumpLine(addr, run)| + 1 <= HexdumpBufferSize
  {
    HexdumpLineAddress(addr, run);
  }

  /// No pass of the hex-section loop writes a NUL: columns hold blanks and
  /// hexadecimal digits only.
  lemma {:induction false} HexColumnsHaveNoNul(run: seq<byte>, i: nat)
    requires i <= BytesPerLine
    ensures NUL !in HexColumns(run, i)
    decreases i
  {
    if i > 0 {
      HexColumnsHaveNoNul(run, i - 1);
      var c := Column(run, i - 1);
      assert NUL !in c by {
        if i - 1 < |run| {
          var d := Hex2(run[i - 1]);
          assert c == [' ', d[0], d[1]];
        }
      }
    }
  }

  /// `%s` prints a hexdump line whole: when the rendered address holds no
  /// NUL, neither does the line, so `hd_buffer` read up to the terminator
  /// written after the line gives the line itself.
  lemma HexdumpLineHasNoNul(addr: string, run: seq<byte>, rest: string)
    requires |run| <= BytesPerLine && NUL !in addr
    ensures NUL !in HexdumpLine(addr, run)
    ensures CString(HexdumpLine(addr, run) + [NUL] + rest) == HexdumpLine(addr, run)
  {
    var line := HexdumpLine(addr, run);
    HexColumnsHaveNoNul(run, BytesPerLine);
    assert NUL !in GutterText(run) by {
      forall j | 0 <= j < |run| ensures GutterText(run)[j] != NUL {
        GutterTextAt(run, j);
      }
    }
    assert NUL !in line;
    var s := line + [NUL] + rest;
    assert s[..|line|] == line;
    CStringAt(s, |line|);
  }

  /// A slice taken inside the middle part of a concatenation.
  lemma SliceInMiddle<T>(x: seq<T>, y: seq<T>, z: seq<T>, lo: nat, hi: nat)
    requires lo <= hi <= |y|
    ensures (x + y + z)[|x| + lo..|x| + hi] == y[lo..hi]
  {
    assert (x + y + z)[|x| + lo..|x| + hi] == (x + y + z)[|x|..][lo..hi];
    assert (x + y + z)[|x|..] == y + z;
  }

  /// The gutter: `"  |"`, one shown character per byte, `"|"`.
  lemma GutterLayout(run: seq<byte>)
    ensures var g := Gutter(run);
            |g| == |run| + 4 &&
            g[..3] == "  |" &&
            (forall j :: 0 <= j < |run| ==> g[3 + j] == Shown(run[j])) &&
            g[3 + |run|] == '|'
  {
    forall j | 0 <= j < |run| ensures Gutter(run)[3 + j] == Shown(run[j]) {
      GutterTextAt(run, j);
    }
  }
}
