/** The level-name colouriser of the logging setup: the COLORS table of
    ANSI colour codes with its level-name aliases, the console formatter
    that wraps a record's level name in its colour and a reset, and the file
    formatter that leaves the level name alone. Both formatters work on a
    copy of the record; records here are values, so the caller's record is
    never changed by construction. The rendering of a record into a line
    (`logging.Formatter.format`) belongs to the logging library and is a
    parameter. */
module Logger {
  import opened Python

  const Esc: char := '\U{1B}'

  /** An ANSI "select graphic rendition" sequence: ESC, '[', digits and
      semicolons, then 'm'. */
  predicate IsColorCode(c: string)
  {
    && |c| >= 3
    && c[0] == Esc && c[1] == '[' && c[|c| - 1] == 'm'
    && forall i | 2 <= i < |c| - 1 :: c[i] == ';' || '0' <= c[i] <= '9'
  }

  /** The colour names and their codes. */
  const BaseColors: map<string, string> := map[
    "DEFAULT" := "\U{1B}[0m",
    "BLACK" := "\U{1B}[30m",
    "BLUE" := "\U{1B}[34m",
    "BRIGHT_BLACK" := "\U{1B}[90m",
    "BRIGHT_BLUE" := "\U{1B}[94m",
    "BRIGHT_CYAN" := "\U{1B}[96m",
    "BRIGHT_GREEN" := "\U{1B}[92m",
    "BRIGHT_MAGENTA" := "\U{1B}[95m",
    "BRIGHT_RED" := "\U{1B}[91m",
    "BRIGHT_WHITE" := "\U{1B}[97m",
    "BRIGHT_YELLOW" := "\U{1B}[93m",
    "CYAN" := "\U{1B}[36m",
    "GREEN" := "\U{1B}[32m",
    "MAGENTA" := "\U{1B}[35m",
    "ORANGE" := "\U{1B}[38;5;208m",
    "RED" := "\U{1B}[31m",
    "WHITE" := "\U{1B}[37m",
    "YELLOW" := "\U{1B}[33m"
  ]

  /** COLORS: the base table with the level names added as aliases of
      colours, in the order the source assigns them. */
  const Colors: map<string, string> :=
    BaseColors
      ["INFO" := BaseColors["BRIGHT_BLUE"]]
      ["WARNING" := BaseColors["BRIGHT_YELLOW"]]
      ["WARN" := BaseColors["BRIGHT_YELLOW"]]
      ["ERROR" := BaseColors["BRIGHT_RED"]]
      ["DEBUG" := BaseColors["ORANGE"]]

  /** `COLORS['DEFAULT']`, the reset code. */
  const Reset: string := Colors["DEFAULT"]

  /** Every colour of the base table is a colour code. */
  lemma BaseColorsAreCodes()
    ensures forall k | k in BaseColors :: IsColorCode(BaseColors[k])
  {
    var codes := ["\U{1B}[0m", "\U{1B}[30m", "\U{1B}[34m", "\U{1B}[90m", "\U{1B}[94m", "\U{1B}[96m",
                  "\U{1B}[92m", "\U{1B}[95m", "\U{1B}[91m", "\U{1B}[97m", "\U{1B}[93m", "\U{1B}[36m",
                  "\U{1B}[32m", "\U{1B}[35m", "\U{1B}[38;5;208m", "\U{1B}[31m", "\U{1B}[37m", "\U{1B}[33m"];
    assert forall i | 0 <= i < |codes| :: IsColorCode(codes[i]);
    assert forall k | k in BaseColors :: BaseColors[k] in codes;
  }

  /** Every entry of COLORS, aliases included, is a colour code. */
  lemma ColorsAreCodes()
    ensures forall k | k in Colors :: IsColorCode(Colors[k])
  {
    BaseColorsAreCodes();
    assert forall k | k in Colors :: Colors[k] in BaseColors.Values;
  }

  /** `COLORS.get(levelname, COLORS['DEFAULT'])`: a colour code, the one the
      table has for the level name, and the reset code for a name it does
      not have. */
  function ColorFor(levelname: string): (c: string)
    ensures IsColorCode(c)
    ensures levelname in Colors ==> c == Colors[levelname]
    ensures levelname !in Colors ==> c == Reset
  {
    ColorsAreCodes();
    if levelname in Colors then Colors[levelname] else Colors["DEFAULT"]
  }

  /** The level aliases: INFO is bright blue, WARNING and WARN are both
      bright yellow, ERROR is bright red, DEBUG is orange, and the five
      level names are in the table. CRITICAL is not, so it gets the reset
      code and stays uncoloured. */
  lemma LevelAliases()
    ensures ColorFor("INFO") == BaseColors["BRIGHT_BLUE"] == "\U{1B}[94m"
    ensures ColorFor("WARNING") == ColorFor("WARN") == BaseColors["BRIGHT_YELLOW"] == "\U{1B}[93m"
    ensures ColorFor("ERROR") == BaseColors["BRIGHT_RED"] == "\U{1B}[91m"
    ensures ColorFor("DEBUG") == BaseColors["ORANGE"] == "\U{1B}[38;5;208m"
    ensures ColorFor("CRITICAL") == Reset == "\U{1B}[0m"
  {
    assert "CRITICAL" !in Colors;
  }

  /** The level name as the console formatter rewrites it. */
  function Colorize(levelname: string): (s: string)
    ensures |s| == |ColorFor(levelname)| + |levelname| + |Reset|
    ensures s[..|ColorFor(levelname)|] == ColorFor(levelname)
    ensures s[|s| - |Reset|..] == Reset
    ensures StripColor(s) == levelname
  {
    var c := ColorFor(levelname);
    var s := c + levelname + Reset;
    StripColorized(c, levelname);
    s
  }

  /** Undo the colouring: drop a leading colour code and a trailing reset
      code; a string without a leading colour code is left as it is. */
  function StripColor(s: string): string
  {
    if |s| >= 2 && s[0] == Esc && s[1] == '[' && 'm' in s then
      var rest := s[IndexOf(s, 'm') + 1..];
      if |rest| >= |Reset| && rest[|rest| - |Reset|..] == Reset then rest[..|rest| - |Reset|] else rest
    else s
  }

  lemma StripColorized(c: string, levelname: string)
    requires IsColorCode(c)
    ensures StripColor(c + levelname + Reset) == levelname
  {
    var s := c + levelname + Reset;
    assert s[..|c|] == c;
    assert 'm' in s by { assert s[|c| - 1] == 'm'; }
    var i := IndexOf(s, 'm');
    assert forall j | 0 <= j < |c| - 1 :: s[j] == c[j] && s[j] != 'm';
    assert forall j | 0 <= j < i :: s[j] == s[..i][j] && s[j] != 'm';
    assert i == |c| - 1;
    assert s[i + 1..] == levelname + Reset;
  }

  /** The parts of a log record the formatters touch; everything else a
      record carries is rendered by the logging library. */
  datatype LogRecord = LogRecord(levelname: string, message: string, asctime: string)

  /** The copy `ColoredFormatter.format` hands to the base formatter:
      identical to the record except for the coloured level name. */
  function ColoredClone(record: LogRecord): (clone: LogRecord)
    ensures clone.message == record.message && clone.asctime == record.asctime
    ensures StripColor(clone.levelname) == record.levelname
    ensures var c := ColorFor(record.levelname);
            |c| + |Reset| <= |clone.levelname| && clone.levelname[..|c|] == c
            && clone.levelname[|clone.levelname| - |Reset|..] == Reset
  {
    record.(levelname := Colorize(record.levelname))
  }

  /** `ColoredFormatter.format(record)`: the line is the one the file
      formatter gives for the same record with its level name coloured. */
  function ColoredFormat(record: LogRecord, render: LogRecord -> string): (line: string)
    ensures line == FileFormat(record.(levelname := Colorize(record.levelname)), render)
  {
    render(ColoredClone(record))
  }

  /** `FileFormatter.format(record)`: the copy is rendered as it is, which is
      what the console formatter's copy renders to once its colour is
      stripped, so the file formatter adds no colour. */
  function FileFormat(record: LogRecord, render: LogRecord -> string): (line: string)
    ensures var clone := ColoredClone(record);
            line == render(clone.(levelname := StripColor(clone.levelname)))
  {
    var clone := ColoredClone(record);
    assert clone.(levelname := StripColor(clone.levelname)) == record;
    render(record)
  }
}
