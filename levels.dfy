/// log.h: the severity enumeration, the threshold test every filtering
/// macro makes, the level-to-letter chain of LOG_LEVEL, the colour escapes
/// and the line template LOG_SYSTEM_TIME_FORMAT.
module Levels {

  /// log_level_t, in declaration order.
  datatype Level = None | Error | Warn | Info | Debug | Verbose

  /// The declaration order of log_level_t, least permissive first.
  const Order: seq<Level> := [None, Error, Warn, Info, Debug, Verbose]

  /// The integer C gives each enumerator: its position in the declaration.
  function Rank(l: Level): (r: nat)
    ensures r < |Order| && Order[r] == l
  {
    match l
    case None => 0
    case Error => 1
    case Warn => 2
    case Info => 3
    case Debug => 4
    case Verbose => 5
  }

  /// The compile-time configuration: CONFIG_LOG_LEVEL and CONFIG_LOG_COLORS.
  datatype Config = Config(threshold: Level, colors: bool)

  /// The configuration the header ships with.
  const Shipped: Config := Config(Verbose, true)

  /// `CONFIG_LOG_LEVEL >= level`, the test of LOG_LEVEL_LOCAL and of every
  /// LOG_BUFFER_* macro.
  predicate Admits(threshold: Level, level: Level)
    ensures level == None ==> Admits(threshold, level)
    ensures threshold == None ==> (Admits(threshold, level) <==> level == None)
  {
    Rank(threshold) >= Rank(level)
  }

  /// A threshold admits exactly the levels declared no later than itself.
  lemma AdmitsIffNoLaterInOrder(threshold: Level, level: Level)
    ensures Admits(threshold, level) <==>
            exists i, j :: 0 <= i <= j < |Order| && Order[i] == level && Order[j] == threshold
  {
    if Admits(threshold, level) {
      assert Order[Rank(level)] == level && Order[Rank(threshold)] == threshold;
    }
  }

  /// NONE silences every real level, VERBOSE admits everything, and raising
  /// the threshold never silences a level that was admitted.
  lemma ThresholdExtremes(lower: Level, higher: Level, level: Level)
    ensures level != None ==> !Admits(None, level)
    ensures Admits(Verbose, level)
    ensures Admits(lower, level) && Rank(lower) <= Rank(higher) ==> Admits(higher, level)
  {
  }

  /// The letter each line starts with.
  datatype Letter = E | W | I | D | V

  /// The `if / else if` chain of LOG_LEVEL: ERROR, WARN, DEBUG and VERBOSE
  /// have their own letter; every other level falls to the final `else`.
  function LetterOf(level: Level): (c: Letter)
    ensures c == E <==> level == Error
    ensures c == W <==> level == Warn
    ensures c == D <==> level == Debug
    ensures c == V <==> level == Verbose
    ensures c == I <==> level == None || level == Info
  {
    match level
    case Error => E
    case Warn => W
    case Debug => D
    case Verbose => V
    case _ => I
  }

  /// The level LOG_LEVEL passes on to log_write in the branch of a letter,
  /// and the level each LOGx macro logs at.
  function LevelOf(c: Letter): (level: Level)
    ensures level != None
    ensures LetterOf(level) == c
  {
    match c
    case E => Error
    case W => Warn
    case I => Info
    case D => Debug
    case V => Verbose
  }

  /// Every level but NONE keeps its identity through the dispatch; NONE is
  /// logged as INFO.
  lemma DispatchRoundTrip(level: Level)
    ensures LevelOf(LetterOf(level)) == if level == None then Info else level
  {
  }

  /// The letter as printed.
  function LetterChar(c: Letter): (ch: char)
    ensures ch in "EWIDV"
  {
    match c
    case E => 'E'
    case W => 'W'
    case I => 'I'
    case D => 'D'
    case V => 'V'
  }

  /// LOG_COLOR_RED, _BROWN, _GREEN, _PURPLE, _BLUE for E, W, I, D, V.
  function ColorCode(c: Letter): (code: string)
    ensures |code| == 2 && code[0] == '3'
  {
    match c
    case E => "31"
    case W => "33"
    case I => "32"
    case D => "35"
    case V => "34"
  }

  /// LOG_COLOR_x: the escape `ESC [ 0 ; code m`, or nothing with colours off.
  function ColorOn(colors: bool, c: Letter): (s: string)
    ensures colors ==> |s| == 7 && s[..4] == "\U{1B}[0;" && s[4..6] == ColorCode(c) && s[6] == 'm'
    ensures !colors ==> s == ""
  {
    if colors then "\U{1B}[0;" + ColorCode(c) + "m" else ""
  }

  /// LOG_RESET_COLOR, or nothing with colours off.
  function ColorOff(colors: bool): (s: string)
    ensures |s| == if colors then 4 else 0
  {
    if colors then "\U{1B}[0m" else ""
  }

  /// Each letter has its own colour.
  lemma ColorsDistinct(a: Letter, b: Letter)
    ensures ColorOn(true, a) == ColorOn(true, b) <==> a == b
  {
    if ColorOn(true, a) == ColorOn(true, b) {
      assert ColorOn(true, a)[4..6] == ColorOn(true, b)[4..6];
    }
  }

  /// LOG_SYSTEM_TIME_FORMAT with its three `%s` filled in by the timestamp,
  /// the tag and the message: colour escape, label, message, reset, newline.
  function FormatLine(colors: bool, c: Letter, ts: string, tag: string, msg: string): (line: string)
    ensures |line| == (if colors then 11 else 0) + 8 + |ts| + |tag| + |msg|
  {
    ColorOn(colors, c) + Label(c, ts, tag) + msg + ColorOff(colors) + "\n"
  }

  /// `#letter " [%s] %s: "` with the timestamp and the tag filled in.
  function Label(c: Letter, ts: string, tag: string): (l: string)
    ensures |l| == |ts| + |tag| + 7 && l[0] == LetterChar(c)
  {
    [LetterChar(c)] + " [" + ts + "] " + tag + ": "
  }

  /// Where the fields of the label sit: the letter, `" ["`, the timestamp,
  /// `"] "`, the tag and `": "`.
  lemma LabelFields(c: Letter, ts: string, tag: string)
    ensures var l := Label(c, ts, tag);
            var t := 5 + |ts|;
            |l| == t + |tag| + 2 &&
            l[0] == LetterChar(c) &&
            l[1..3] == " [" &&
            l[3..3 + |ts|] == ts &&
            l[3 + |ts|..t] == "] " &&
            l[t..t + |tag|] == tag &&
            l[t + |tag|..] == ": "
  {
    var head := [LetterChar(c)] + " [";
    var stamp := head + ts + "] ";
    var l := stamp + tag + ": ";
    assert l[..|stamp|] == stamp;
    assert stamp[..|head|] == head;
    assert stamp[|head|..|head| + |ts|] == ts;
    assert stamp[|head| + |ts|..] == "] ";
    assert l[|stamp|..|stamp| + |tag|] == tag;
  }

  /// Where the parts of a line sit: the colour escape, the label, the
  /// message, then the reset and the newline.
  lemma LineFields(colors: bool, c: Letter, ts: string, tag: string, msg: string)
    ensures var line := FormatLine(colors, c, ts, tag, msg);
            var p := |ColorOn(colors, c)|;
            var m := p + |Label(c, ts, tag)|;
            |line| == m + |msg| + |ColorOff(colors)| + 1 &&
            line[..p] == ColorOn(colors, c) &&
            line[p..m] == Label(c, ts, tag) &&
            line[m..m + |msg|] == msg &&
            line[m + |msg|..] == ColorOff(colors) + "\n"
  {
    var on := ColorOn(colors, c);
    var named := on + Label(c, ts, tag);
    var line := named + msg + (ColorOff(colors) + "\n");
    assert FormatLine(colors, c, ts, tag, msg) == line;
    assert line[..|named|] == named;
    assert named[..|on|] == on;
  }

  /// Turning colours off removes exactly the leading escape and the reset
  /// and leaves the rest of the line as it was.
  lemma ColorsOnlyWrap(c: Letter, ts: string, tag: string, msg: string)
    ensures var plain := FormatLine(false, c, ts, tag, msg);
            |plain| > 0 &&
            FormatLine(true, c, ts, tag, msg) ==
              ColorOn(true, c) + plain[..|plain| - 1] + ColorOff(true) + "\n"
  {
    var body := Label(c, ts, tag) + msg;
    var plain := FormatLine(false, c, ts, tag, msg);
    assert plain == body + "\n";
    assert plain[..|plain| - 1] == body;
    assert FormatLine(true, c, ts, tag, msg) == ColorOn(true, c) + body + ColorOff(true) + "\n";
  }

  /// LOG_LEVEL: one line, its letter and colour chosen by the level.
  function LogLevel(colors: bool, level: Level, ts: string, tag: string, msg: string): (line: string)
    ensures |line| == (if colors then 11 else 0) + 8 + |ts| + |tag| + |msg|
  {
    FormatLine(colors, LetterOf(level), ts, tag, msg)
  }

  /// LOG_LEVEL_LOCAL: the lines handed to the sink, one if the threshold
  /// admits the level and none otherwise.
  function LogLevelLocal(cfg: Config, level: Level, ts: string, tag: string, msg: string): (lines: seq<string>)
    ensures |lines| == 1 <==> Admits(cfg.threshold, level)
    ensures |lines| == 0 <==> !Admits(cfg.threshold, level)
    ensures forall line <- lines :: line == FormatLine(cfg.colors, LetterOf(level), ts, tag, msg)
  {
    if Admits(cfg.threshold, level) then [LogLevel(cfg.colors, level, ts, tag, msg)] else []
  }

  /// A call made at level NONE is never filtered out, not even under a
  /// NONE threshold, since `CONFIG_LOG_LEVEL >= LOG_NONE` always holds: it
  /// is printed as one line with the letter I.
  lemma NoneLevelAlwaysEmitted(cfg: Config, ts: string, tag: string, msg: string)
    ensures Admits(cfg.threshold, None)
    ensures LogLevelLocal(cfg, None, ts, tag, msg) == [FormatLine(cfg.colors, I, ts, tag, msg)]
  {
  }

  /// LOGE, LOGW, LOGI, LOGD and LOGV: LOG_LEVEL_LOCAL at the level of the
  /// macro's letter. A line that gets through carries that same letter, and
  /// with the threshold at NONE nothing gets through.
  function LogMacro(cfg: Config, c: Letter, ts: string, tag: string, msg: string): (lines: seq<string>)
    ensures |lines| <= 1
    ensures lines != [] <==> Admits(cfg.threshold, LevelOf(c))
    ensures cfg.threshold == None ==> lines == []
    ensures forall line <- lines :: line == FormatLine(cfg.colors, c, ts, tag, msg)
  {
    LogLevelLocal(cfg, LevelOf(c), ts, tag, msg)
  }

  /// With the shipped configuration every macro emits its one line, in colour.
  lemma ShippedEmitsEverything(c: Letter, ts: string, tag: string, msg: string)
    ensures LogMacro(Shipped, c, ts, tag, msg) == [FormatLine(true, c, ts, tag, msg)]
  {
    assert Admits(Verbose, LevelOf(c));
  }
}
