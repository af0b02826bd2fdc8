/// How every dumper in log.c cuts its buffer into lines: runs of
/// BYTES_PER_LINE bytes, the last one possibly shorter.
module Chunking {
  import opened Bytes

  /// BYTES_PER_LINE.
  const BytesPerLine: nat := 16

  /// The largest length a dumper can be given: `buff_len` is a uint16_t.
  const MaxBufferLength: nat := 0xFFFF

  /// `bytes_cur_line`: a full line while more than a line remains,
  /// otherwise whatever is left.
  function LineLength(remaining: nat): (n: nat)
    ensures n <= BytesPerLine && n <= remaining
    ensures n == BytesPerLine || n == remaining
    ensures remaining > 0 ==> n > 0
  {
    if remaining > BytesPerLine then BytesPerLine else remaining
  }

  /// The number of lines a buffer of `len` bytes takes: len / 16 rounded up.
  function LineCount(len: nat): (n: nat)
    ensures n == 0 <==> len == 0
    ensures len <= BytesPerLine * n
    ensures n > 0 ==> BytesPerLine * (n - 1) < len
  {
    (len + BytesPerLine - 1) / BytesPerLine
  }

  /// Line k of a buffer exists exactly when byte 16 k does: LineCount is
  /// the least k for which 16 k reaches the length.
  lemma LineExists(len: nat, k: nat)
    ensures k < LineCount(len) <==> BytesPerLine * k < len
  {
    var q := (len + BytesPerLine - 1) / BytesPerLine;
    assert len + BytesPerLine - 1 == BytesPerLine * q + (len + BytesPerLine - 1) % BytesPerLine;
  }

  /// The runs of bytes the dumpers' loop visits, in order: each iteration
  /// takes `LineLength` bytes off the front until nothing is left.
  function Chunks(s: seq<byte>): seq<seq<byte>>
    decreases |s|
  {
    if |s| == 0 then [] else [s[..LineLength(|s|)]] + Chunks(s[LineLength(|s|)..])
  }

  /// A buffer of N bytes takes N / 16 lines rounded up, and none when empty.
  lemma {:induction false} ChunkCount(s: seq<byte>)
    ensures |Chunks(s)| == LineCount(|s|)
    ensures Chunks(s) == [] <==> |s| == 0
    decreases |s|
  {
    if |s| > 0 {
      var n := LineLength(|s|);
      ChunkCount(s[n..]);
      assert |Chunks(s)| == 1 + LineCount(|s| - n);
    }
  }

  /// Run k starts at byte 16 k and holds 16 bytes, or what is left of the
  /// buffer if that is fewer: every run but the last is full and no run is
  /// empty.
  lemma {:induction false} ChunkAt(s: seq<byte>, k: nat)
    requires k < |Chunks(s)|
    ensures BytesPerLine * k < |s|
    ensures Chunks(s)[k] == s[BytesPerLine * k..BytesPerLine * k + LineLength(|s| - BytesPerLine * k)]
    ensures 0 < |Chunks(s)[k]| <= BytesPerLine
    ensures k < |Chunks(s)| - 1 ==> |Chunks(s)[k]| == BytesPerLine
    decreases |s|
  {
    var n := LineLength(|s|);
    var rest := s[n..];
    assert Chunks(s) == [s[..n]] + Chunks(rest);
    if k > 0 {
      ChunkAt(rest, k - 1);
      assert n == BytesPerLine;
      var at := BytesPerLine * (k - 1);
      assert at + n == BytesPerLine * k;
      assert |rest| - at == |s| - BytesPerLine * k;
      SliceOfSuffix(s, n, at, at + LineLength(|rest| - at));
    } else if |Chunks(s)| > 1 {
      assert |rest| > 0;
    }
  }

  /// A slice of a suffix is a slice of the whole, shifted.
  lemma SliceOfSuffix<T>(s: seq<T>, n: nat, lo: nat, hi: nat)
    requires n <= |s| && lo <= hi <= |s| - n
    ensures s[n..][lo..hi] == s[n + lo..n + hi]
  {
  }

  /// Run k of a buffer, found from the offset 16 k the dumpers' loop has
  /// reached: it is the next LineLength bytes, and it is the last run
  /// exactly when it reaches the end of the buffer.
  lemma RunAtOffset(s: seq<byte>, offset: nat, k: nat)
    requires offset < |s| && offset == BytesPerLine * k
    ensures var n := LineLength(|s| - offset);
            k < |Chunks(s)| &&
            Chunks(s)[k] == s[offset..offset + n] &&
            (offset + n == |s| <==> k + 1 == |Chunks(s)|) &&
            (offset + n < |s| ==> n == BytesPerLine)
  {
    ChunkCount(s);
    LineExists(|s|, k);
    LineExists(|s|, k + 1);
    ChunkAt(s, k);
  }

  /// The runs laid end to end, in order.
  function Concat(cs: seq<seq<byte>>): seq<byte>
  {
    if cs == [] then [] else cs[0] + Concat(cs[1..])
  }

  /// The runs cover the buffer exactly: no byte is skipped, none is
  /// visited twice, and they come in buffer order.
  lemma {:induction false} ChunksCoverBuffer(s: seq<byte>)
    ensures Concat(Chunks(s)) == s
    decreases |s|
  {
    if |s| > 0 {
      var n := LineLength(|s|);
      ChunksCoverBuffer(s[n..]);
      assert Chunks(s)[1..] == Chunks(s[n..]);
      assert s == s[..n] + s[n..];
    }
  }
}
