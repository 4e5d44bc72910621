/** The log aggregator script: parses bracketed log lines from several log files, merges them
    newest first, keeps the newest 100, counts them by level and by source, and falls back to
    four fixed entries when nothing was found. File access becomes the `content` of each source
    (absent when the file is missing or cannot be read); date parsing and the clock are
    parameters. */
module LogAggregator {
  import opened Wrappers
  import opened JsText
  import Ordering
  import Lists

  datatype Level = Error | Warning | Info | Success

  /** The lower-case level name: what the parser stores and what the tag matches case-insensitively. */
  function LevelName(l: Level): string {
    match l
    case Error => "error"
    case Warning => "warning"
    case Info => "info"
    case Success => "success"
  }

  /** `LOG_LEVELS` */
  datatype LevelStyle = LevelStyle(icon: string, color: string, weight: nat)

  function StyleOf(l: Level): LevelStyle {
    match l
    case Error => LevelStyle("❌", "red", 4)
    case Warning => LevelStyle("⚠️", "yellow", 3)
    case Info => LevelStyle("📊", "cyan", 2)
    case Success => LevelStyle("✅", "green", 1)
  }

  /** The weights rank the levels by severity, error highest. */
  lemma WeightsRankSeverity()
    ensures StyleOf(Error).weight > StyleOf(Warning).weight > StyleOf(Info).weight > StyleOf(Success).weight
    ensures forall a: Level, b: Level :: StyleOf(a).weight == StyleOf(b).weight ==> a == b
  {
  }

  datatype Entry = Entry(timestamp: string, level: Level, message: string, source: string,
                         icon: string, color: string, weight: nat)

  const MaxEntries: nat := 100

  // ---- the timestamp pattern /\[([\d-T:.Z]+)\]/ ----

  /** The characters of the class `[\d-T:.Z]`: `-` after a class escape is a literal. */
  predicate IsStampChar(c: char) {
    ('0' <= c <= '9') || c == '-' || c == 'T' || c == ':' || c == '.' || c == 'Z'
  }

  /** line[k..j] is `[`, one or more class characters, `]`: a match of the pattern at k. */
  predicate StampSegment(line: string, k: int, j: int) {
    && 0 <= k && k + 3 <= j <= |line|
    && line[k] == '[' && line[j - 1] == ']'
    && forall m :: k < m < j - 1 ==> IsStampChar(line[m])
  }

  /** The length of the run of class characters starting at i (what the greedy `+` consumes). */
  function StampRun(line: string, i: nat): (n: nat)
    requires i <= |line|
    ensures i + n <= |line|
    ensures forall m :: i <= m < i + n ==> IsStampChar(line[m])
    ensures i + n < |line| ==> !IsStampChar(line[i + n])
    decreases |line| - i
  {
    if i < |line| && IsStampChar(line[i]) then 1 + StampRun(line, i + 1) else 0
  }

  /** The greedy run decides the only possible end of a match starting at k. */
  lemma StampSegmentEnd(line: string, k: int, j: int)
    requires StampSegment(line, k, j)
    ensures j == k + 2 + StampRun(line, k + 1)
  {
    var n := StampRun(line, k + 1);
    assert !IsStampChar(line[j - 1]);
    assert j - 1 >= k + 1 + n;
  }

  lemma NoStampAt(line: string, from: nat)
    requires from < |line|
    requires !(line[from] == '[' && from + 1 + StampRun(line, from + 1) < |line|
               && StampRun(line, from + 1) > 0 && line[from + 1 + StampRun(line, from + 1)] == ']')
    ensures forall j :: !StampSegment(line, from, j)
  {
    forall j | StampSegment(line, from, j) ensures false {
      StampSegmentEnd(line, from, j);
    }
  }

  /** The leftmost match at or after `from`, as (start, end). */
  function FindStamp(line: string, from: nat): (r: Option<(nat, nat)>)
    ensures r.Some? ==> from <= r.value.0 && StampSegment(line, r.value.0, r.value.1)
    ensures r.Some? ==> forall k, j :: from <= k < r.value.0 ==> !StampSegment(line, k, j)
    ensures r.None? ==> forall k, j :: from <= k ==> !StampSegment(line, k, j)
    decreases |line| - from
  {
    if from >= |line| then None
    else if line[from] == '[' && from + 1 + StampRun(line, from + 1) < |line|
            && StampRun(line, from + 1) > 0 && line[from + 1 + StampRun(line, from + 1)] == ']' then
      Some((from, from + 2 + StampRun(line, from + 1)))
    else
      NoStampAt(line, from);
      FindStamp(line, from + 1)
  }

  // ---- the level pattern /\[(ERROR|WARNING|INFO|SUCCESS)\]/i ----

  /** line[k..] starts with `[`, the level's name in any ASCII case, `]`. */
  predicate LevelTagAt(line: string, k: int, l: Level) {
    var w := LevelName(l);
    && 0 <= k && k + |w| + 2 <= |line|
    && line[k] == '[' && LowerAsciiString(line[k + 1..k + 1 + |w|]) == w && line[k + 1 + |w|] == ']'
  }

  /** A tag's first letter, folded, is its level name's first letter. */
  lemma TagFirstLetter(line: string, k: int, l: Level)
    requires LevelTagAt(line, k, l)
    ensures LowerAscii(line[k + 1]) == LevelName(l)[0]
  {
    var w := LevelName(l);
    assert LowerAsciiString(line[k + 1..k + 1 + |w|])[0] == LowerAscii(line[k + 1]);
  }

  /** At most one level tag starts at a position: the four names start with different letters. */
  lemma OneTagAt(line: string, k: int, l: Level, l': Level)
    requires LevelTagAt(line, k, l) && LevelTagAt(line, k, l')
    ensures l == l'
  {
    TagFirstLetter(line, k, l);
    TagFirstLetter(line, k, l');
  }

  /** The level whose tag starts at k, if any. */
  function TagAt(line: string, k: nat): Option<Level> {
    if LevelTagAt(line, k, Error) then Some(Error)
    else if LevelTagAt(line, k, Warning) then Some(Warning)
    else if LevelTagAt(line, k, Info) then Some(Info)
    else if LevelTagAt(line, k, Success) then Some(Success)
    else None
  }

  /** The tag read at k is exactly the level whose tag starts there. */
  lemma TagAtSpec(line: string, k: nat, l: Level)
    ensures LevelTagAt(line, k, l) <==> TagAt(line, k) == Some(l)
  {
    if LevelTagAt(line, k, l) {
      if LevelTagAt(line, k, Error) {
        OneTagAt(line, k, l, Error);
      } else if LevelTagAt(line, k, Warning) {
        OneTagAt(line, k, l, Warning);
      } else if LevelTagAt(line, k, Info) {
        OneTagAt(line, k, l, Info);
      }
    }
  }

  /** The leftmost level tag at or after `from`, as (start, level). */
  function FindLevel(line: string, from: nat): (r: Option<(nat, Level)>)
    ensures r.Some? ==> from <= r.value.0 && LevelTagAt(line, r.value.0, r.value.1)
    ensures r.Some? ==> forall k, l :: from <= k < r.value.0 ==> !LevelTagAt(line, k, l)
    ensures r.None? ==> forall k, l :: from <= k ==> !LevelTagAt(line, k, l)
    decreases |line| - from
  {
    if from >= |line| then None
    else
      assert forall l :: LevelTagAt(line, from, l) <==> TagAt(line, from) == Some(l) by {
        forall l { TagAtSpec(line, from, l); }
      }
      match TagAt(line, from)
      case Some(l) => Some((from, l))
      case None => FindLevel(line, from + 1)
  }

  /** `s.replace(levelRegex, '')`: the first level tag removed, if there is one. */
  function RemoveFirstLevelTag(s: string): string {
    match FindLevel(s, 0)
    case None => s
    case Some((k, l)) => s[..k] + s[k + |LevelName(l)| + 2..]
  }

  ghost predicate HasTimestamp(line: string) {
    exists k, j :: StampSegment(line, k, j)
  }

  ghost predicate HasLevelTag(line: string) {
    exists k, l :: LevelTagAt(line, k, l)
  }

  /** The message: the timestamp match line[i..j] cut out, then the first level tag of what is
      left cut out, then trimmed. */
  function MessageOf(line: string, i: nat, j: nat): string
    requires i <= j <= |line|
  {
    Trim(RemoveFirstLevelTag(line[..i] + line[j..]))
  }

  /** The entry for a line whose first timestamp match is line[i..j] and whose first level tag
      names `level`: the timestamp is the match's capture, and the level's icon, colour and
      weight come from its style. */
  function EntryOf(line: string, kind: string, i: nat, j: nat, level: Level): Entry
    requires i + 3 <= j <= |line|
  {
    Entry(line[i + 1..j - 1], level, MessageOf(line, i, j), kind,
          StyleOf(level).icon, StyleOf(level).color, StyleOf(level).weight)
  }

  /** `parseLogLine`: null unless the line has a timestamp and a level tag; the timestamp is the
      first match's capture, the level the first tag's lower-cased name, and the message the line
      with the first timestamp removed, then the first tag of what is left removed, then trimmed. */
  function ParseLogLine(line: string, kind: string): Option<Entry> {
    match FindStamp(line, 0)
    case None => None
    case Some((i, j)) =>
      match FindLevel(line, 0)
      case None => None
      case Some((_, level)) => Some(EntryOf(line, kind, i, j, level))
  }

  /** A line parses exactly when it has a timestamp and a level tag; the timestamp comes from the
      leftmost timestamp match and the level from the leftmost tag. */
  lemma ParseLogLineSpec(line: string, kind: string)
    ensures ParseLogLine(line, kind).Some? <==> HasTimestamp(line) && HasLevelTag(line)
  {
    var stamp, tag := FindStamp(line, 0), FindLevel(line, 0);
    if stamp.Some? {
      assert StampSegment(line, stamp.value.0, stamp.value.1);
    }
    if tag.Some? {
      assert LevelTagAt(line, tag.value.0, tag.value.1);
    }
  }

  /** The timestamp is the capture of the leftmost timestamp match. */
  lemma ParsedTimestamp(line: string, kind: string)
    requires ParseLogLine(line, kind).Some?
    ensures exists k, j ::
              && StampSegment(line, k, j)
              && ParseLogLine(line, kind).value.timestamp == line[k + 1..j - 1]
              && (forall k', j' :: k' < k ==> !StampSegment(line, k', j'))
  {
    var (k, j) := FindStamp(line, 0).value;
    assert StampSegment(line, k, j);
  }

  /** The level is the one named by the leftmost level tag. */
  lemma ParsedLevel(line: string, kind: string)
    requires ParseLogLine(line, kind).Some?
    ensures exists k ::
              && LevelTagAt(line, k, ParseLogLine(line, kind).value.level)
              && (forall k', l :: k' < k ==> !LevelTagAt(line, k', l))
  {
    var (k, l) := FindLevel(line, 0).value;
    assert LevelTagAt(line, k, l);
  }

  /** A parsed entry carries its source kind and its level's icon, colour and weight. */
  lemma ParsedEntryStyle(line: string, kind: string)
    requires ParseLogLine(line, kind).Some?
    ensures ParseLogLine(line, kind).value.source == kind
    ensures ParseLogLine(line, kind).value.icon == StyleOf(ParseLogLine(line, kind).value.level).icon
    ensures ParseLogLine(line, kind).value.color == StyleOf(ParseLogLine(line, kind).value.level).color
    ensures ParseLogLine(line, kind).value.weight == StyleOf(ParseLogLine(line, kind).value.level).weight
  {
  }

  /** A level tag's first letter is none of the (ASCII-folded) timestamp characters. */
  lemma NoTagOverStamp(s: string, k: int, l: Level)
    requires 0 <= k && k + 1 < |s| && IsStampChar(s[k + 1])
    ensures !LevelTagAt(s, k, l)
  {
  }

  /** When the leftmost level tag starts at k, the search finds it. */
  lemma FindLevelFinds(s: string, k: nat, l: Level)
    requires LevelTagAt(s, k, l)
    requires forall k', l' :: 0 <= k' < k ==> !LevelTagAt(s, k', l')
    ensures FindLevel(s, 0) == Some((k, l))
  {
    var r := FindLevel(s, 0);
    assert r.Some?;
    assert r.value.0 == k;
    OneTagAt(s, k, l, r.value.1);
  }

  /** What the two searches find determines the parsed entry. */
  lemma ParsedFields(line: string, kind: string, i: nat, j: nat, k: nat, l: Level)
    requires FindStamp(line, 0) == Some((i, j)) && FindLevel(line, 0) == Some((k, l))
    ensures i + 3 <= j <= |line|
    ensures ParseLogLine(line, kind) == Some(EntryOf(line, kind, i, j, l))
  {
  }

  /** A non-empty run of timestamp characters: what the timestamp pattern captures. */
  predicate IsStampText(ts: string) {
    |ts| > 0 && forall m :: 0 <= m < |ts| ==> IsStampChar(ts[m])
  }

  /** The shape the log files use: `[<timestamp>] [<LEVEL>] <message>`. */
  function TypicalLine(ts: string, tag: string, msg: string): string {
    "[" + ts + "] [" + tag + "] " + msg
  }

  lemma TypicalStamp(ts: string, tag: string, msg: string)
    requires IsStampText(ts)
    ensures FindStamp(TypicalLine(ts, tag, msg), 0) == Some((0, |ts| + 2))
    ensures TypicalLine(ts, tag, msg)[1..|ts| + 1] == ts
  {
    var line := TypicalLine(ts, tag, msg);
    var n := |ts|;
    assert forall m :: 1 <= m < 1 + n ==> line[m] == ts[m - 1];
    assert line[n + 1] == ']';
    var run := StampRun(line, 1);
    assert run == n by {
      assert !IsStampChar(line[1 + n]);
    }
  }

  /** A bracketed tag after any text that ends with its opening bracket. */
  lemma TagAfter(prefix: string, tag: string, l: Level, suffix: string)
    requires prefix != [] && prefix[|prefix| - 1] == '['
    requires LowerAsciiString(tag) == LevelName(l)
    ensures LevelTagAt(prefix + tag + ("]" + suffix), |prefix| - 1, l)
  {
    var line := prefix + tag + ("]" + suffix);
    assert |tag| == |LevelName(l)|;
    assert line[|prefix|..|prefix| + |tag|] == tag;
    assert line[|prefix| + |tag|] == ']';
  }

  /** The tag of a typical line starts right after the timestamp's closing bracket and a space. */
  lemma TypicalTagAt(ts: string, tag: string, l: Level, msg: string)
    requires LowerAsciiString(tag) == LevelName(l)
    ensures LevelTagAt(TypicalLine(ts, tag, msg), |ts| + 3, l)
  {
    var head := "[" + ts + "] [";
    assert TypicalLine(ts, tag, msg) == head + tag + ("]" + (" " + msg));
    TagAfter(head, tag, l, " " + msg);
  }

  /** No level tag starts inside the timestamp part of a typical line. */
  lemma NoTagBeforeTypicalTag(ts: string, tag: string, msg: string)
    requires IsStampText(ts)
    ensures forall k, l :: 0 <= k < |ts| + 3 ==> !LevelTagAt(TypicalLine(ts, tag, msg), k, l)
  {
    var line := TypicalLine(ts, tag, msg);
    var head := "[" + ts + "] [";
    assert line == head + (tag + "] " + msg);
    forall k, l | 0 <= k < |ts| + 3 ensures !LevelTagAt(line, k, l) {
      assert line[k] == head[k] && line[k + 1] == head[k + 1];
      if k == 0 {
        assert head[1] == ts[0];
        NoTagOverStamp(line, 0, l);
      } else if k <= |ts| {
        assert head[k] == ts[k - 1];
      }
    }
  }

  lemma TypicalLevel(ts: string, tag: string, l: Level, msg: string)
    requires IsStampText(ts)
    requires LowerAsciiString(tag) == LevelName(l)
    ensures FindLevel(TypicalLine(ts, tag, msg), 0) == Some((|ts| + 3, l))
  {
    TypicalTagAt(ts, tag, l, msg);
    NoTagBeforeTypicalTag(ts, tag, msg);
    FindLevelFinds(TypicalLine(ts, tag, msg), |ts| + 3, l);
  }

  /** After the timestamp is cut out, the tag is the first one, one space in. */
  lemma TagAfterStampCut(tag: string, l: Level, msg: string)
    requires LowerAsciiString(tag) == LevelName(l)
    ensures FindLevel(" [" + tag + "] " + msg, 0) == Some((1, l))
  {
    var rest := " [" + tag + "] " + msg;
    assert rest == " [" + tag + ("]" + (" " + msg));
    TagAfter(" [", tag, l, " " + msg);
    assert rest[0] == ' ';
    FindLevelFinds(rest, 1, l);
  }

  lemma CutAroundTag(tag: string, msg: string)
    ensures var rest := " [" + tag + "] " + msg;
            rest[..1] + rest[|tag| + 3..] == "  " + msg
  {
    var rest := " [" + tag + "] " + msg;
    assert rest[..1] == " ";
    assert rest[|tag| + 3..] == " " + msg;
  }

  /** Removing the tag from what follows the timestamp leaves the two spaces around it. */
  lemma RemoveTypicalTag(tag: string, l: Level, msg: string)
    requires LowerAsciiString(tag) == LevelName(l)
    ensures RemoveFirstLevelTag(" [" + tag + "] " + msg) == "  " + msg
  {
    TagAfterStampCut(tag, l, msg);
    CutAroundTag(tag, msg);
    assert |tag| == |LevelName(l)|;
  }

  lemma TypicalMessage(ts: string, tag: string, l: Level, msg: string)
    requires LowerAsciiString(tag) == LevelName(l)
    ensures MessageOf(TypicalLine(ts, tag, msg), 0, |ts| + 2) == Trim(msg)
  {
    var line := TypicalLine(ts, tag, msg);
    assert line[..0] + line[|ts| + 2..] == " [" + tag + "] " + msg;
    RemoveTypicalTag(tag, l, msg);
    assert AllWhitespace("  ");
    TrimSkipsLeadingWhitespace("  ", msg);
  }

  /** A line of that shape parses into its parts, the level tag matched in any case and the
      message trimmed. */
  lemma ParseTypicalLine(ts: string, tag: string, l: Level, msg: string, kind: string)
    requires IsStampText(ts)
    requires LowerAsciiString(tag) == LevelName(l)
    ensures ParseLogLine(TypicalLine(ts, tag, msg), kind)
      == Some(Entry(ts, l, Trim(msg), kind, StyleOf(l).icon, StyleOf(l).color, StyleOf(l).weight))
  {
    var line := TypicalLine(ts, tag, msg);
    TypicalStamp(ts, tag, msg);
    TypicalLevel(ts, tag, l, msg);
    TypicalMessage(ts, tag, l, msg);
    ParsedFields(line, kind, 0, |ts| + 2, |ts| + 3, l);
  }

  // ---- the cleanup can remove a different tag than the one that decided the level ----

  /** `[[<ts>]<TAG1>] [<TAG2>] <msg>`: the timestamp sits between a `[` and the name `TAG1]`. */
  function ShiftedLine(ts: string, tag1: string, tag2: string, msg: string): string {
    "[" + ("[" + ts + "]") + (tag1 + "] ") + ("[" + tag2 + "] " + msg)
  }

  /** No character of a level tag's name is a bracket. */
  lemma TagNameHasNoBracket(tag: string, l: Level, m: int)
    requires LowerAsciiString(tag) == LevelName(l) && 0 <= m < |tag|
    ensures tag[m] != '['
  {
    assert LowerAscii(tag[m]) == LevelName(l)[m];
  }

  /** Where the blocks of a shifted line sit. */
  lemma ShiftedLineShape(ts: string, tag1: string, l1: Level, tag2: string, msg: string)
    requires IsStampText(ts) && LowerAsciiString(tag1) == LevelName(l1)
    ensures var line, p := ShiftedLine(ts, tag1, tag2, msg), |ts| + |tag1| + 5;
            && p < |line| && line[0] == '[' && line[1] == '[' && IsStampChar(line[2])
            && (forall k :: 2 <= k < p ==> line[k] != '[')
            && line[p..] == "[" + tag2 + ("]" + (" " + msg))
  {
    var line := ShiftedLine(ts, tag1, tag2, msg);
    var head := "[" + ("[" + ts + "]") + (tag1 + "] ");
    assert line == head + ("[" + tag2 + "] " + msg);
    assert "[" + tag2 + "] " + msg == "[" + tag2 + ("]" + (" " + msg));
    assert line[2] == ts[0];
    forall k | 2 <= k < |head| ensures line[k] != '[' {
      assert line[k] == head[k];
      if k < |ts| + 2 {
        assert head[k] == ts[k - 2];
      } else if |ts| + 3 <= k < |ts| + 3 + |tag1| {
        assert head[k] == tag1[k - |ts| - 3];
        TagNameHasNoBracket(tag1, l1, k - |ts| - 3);
      }
    }
  }

  /** The first level tag of a line that opens with `[[`, a timestamp character, and no other
      opening bracket before a tag at p, is that tag. */
  lemma ShiftedFirstTag(line: string, p: nat, l: Level)
    requires 2 < p <= |line| && line[0] == '[' && line[1] == '[' && IsStampChar(line[2])
    requires forall k :: 2 <= k < p ==> line[k] != '['
    requires LevelTagAt(line, p, l)
    ensures FindLevel(line, 0) == Some((p, l))
  {
    forall k, l' | 0 <= k < p ensures !LevelTagAt(line, k, l') {
      NoTagBeforeShifted(line, p, k, l');
    }
    FindLevelFinds(line, p, l);
  }

  /** No tag starts before the shifted tag: not at either opening bracket, and nowhere else. */
  lemma NoTagBeforeShifted(line: string, p: nat, k: nat, l: Level)
    requires 2 < p <= |line| && line[0] == '[' && line[1] == '[' && IsStampChar(line[2])
    requires forall k :: 2 <= k < p ==> line[k] != '['
    requires k < p
    ensures !LevelTagAt(line, k, l)
  {
    if k == 0 {
      if LevelTagAt(line, 0, l) {
        TagFirstLetter(line, 0, l);
      }
    } else if k == 1 {
      NoTagOverStamp(line, 1, l);
    } else {
      assert line[k] != '[';
    }
  }

  /** The leftmost timestamp match is `[<ts>]`, at 1: at 0 the bracket is followed by another. */
  lemma ShiftedStamp(ts: string, tag1: string, tag2: string, msg: string)
    requires IsStampText(ts)
    ensures FindStamp(ShiftedLine(ts, tag1, tag2, msg), 0) == Some((1, |ts| + 3))
    ensures ShiftedLine(ts, tag1, tag2, msg)[2..|ts| + 2] == ts
  {
    var line := ShiftedLine(ts, tag1, tag2, msg);
    var n := |ts|;
    assert line == "[" + ("[" + ts + "]") + (tag1 + "] " + ("[" + tag2 + "] " + msg));
    assert line[1] == '[';
    assert StampRun(line, 1) == 0;
    assert forall m :: 2 <= m < 2 + n ==> line[m] == ts[m - 2];
    assert line[n + 2] == ']';
    assert StampRun(line, 2) == n by {
      assert !IsStampChar(line[2 + n]);
    }
  }

  /** The first level tag of the whole line is `[<TAG2>]`: `<TAG1>]` has no opening bracket. */
  lemma ShiftedLevel(ts: string, tag1: string, l1: Level, tag2: string, l2: Level, msg: string)
    requires IsStampText(ts)
    requires LowerAsciiString(tag1) == LevelName(l1) && LowerAsciiString(tag2) == LevelName(l2)
    ensures FindLevel(ShiftedLine(ts, tag1, tag2, msg), 0) == Some((|ts| + |tag1| + 5, l2))
  {
    var line, p := ShiftedLine(ts, tag1, tag2, msg), |ts| + |tag1| + 5;
    ShiftedLineShape(ts, tag1, l1, tag2, msg);
    TagAfter("[", tag2, l2, " " + msg);
    TagShift(line, p, "[" + tag2 + ("]" + (" " + msg)), l2);
    ShiftedFirstTag(line, p, l2);
  }

  /** A tag at 0 of the tail line[p..] is a tag at p of the line. */
  lemma TagShift(line: string, p: nat, tail: string, l: Level)
    requires p <= |line| && line[p..] == tail && LevelTagAt(tail, 0, l)
    ensures LevelTagAt(line, p, l)
  {
    var w := LevelName(l);
    assert tail[0] == line[p] && tail[1 + |w|] == line[p + 1 + |w|];
    assert line[p + 1..p + 1 + |w|] == tail[1..1 + |w|] by {
      forall m | p + 1 <= m < p + 1 + |w| ensures line[m] == tail[m - p] {
      }
    }
  }

  /** With the timestamp cut out, `[` and `<TAG1>]` close up into the first tag, which the
      cleanup removes, keeping `[<TAG2>]`. */
  lemma ShiftedCleanup(ts: string, tag1: string, l1: Level, tag2: string, msg: string)
    requires IsStampText(ts) && LowerAsciiString(tag1) == LevelName(l1)
    ensures MessageOf(ShiftedLine(ts, tag1, tag2, msg), 1, |ts| + 3) == Trim("[" + tag2 + "] " + msg)
  {
    var line := ShiftedLine(ts, tag1, tag2, msg);
    var rest := "[" + tag2 + "] " + msg;
    var cut := line[..1] + line[|ts| + 3..];
    ShiftedCutShape(ts, tag1, tag2, msg);
    ShiftedCut(cut, tag1, l1, rest);
    assert AllWhitespace(" ");
    TrimSkipsLeadingWhitespace(" ", rest);
  }

  /** Cutting the timestamp out of a shifted line leaves `[<TAG1>] [<TAG2>] <msg>`. */
  lemma ShiftedCutShape(ts: string, tag1: string, tag2: string, msg: string)
    ensures |ts| + 3 <= |ShiftedLine(ts, tag1, tag2, msg)|
    ensures var line := ShiftedLine(ts, tag1, tag2, msg);
            line[..1] + line[|ts| + 3..] == "[" + tag1 + ("]" + (" " + ("[" + tag2 + "] " + msg)))
  {
    var line := ShiftedLine(ts, tag1, tag2, msg);
    var rest := "[" + tag2 + "] " + msg;
    assert line == "[" + ("[" + ts + "]") + (tag1 + "] " + rest);
    assert line[|ts| + 3..] == tag1 + "] " + rest;
  }

  lemma ShiftedCut(cut: string, tag1: string, l1: Level, rest: string)
    requires LowerAsciiString(tag1) == LevelName(l1) && cut == "[" + tag1 + ("]" + (" " + rest))
    ensures RemoveFirstLevelTag(cut) == " " + rest
  {
    ShiftedCutFinds(tag1, l1, rest);
    assert |tag1| == |LevelName(l1)|;
    ShiftedCutTail(tag1, rest);
  }

  lemma ShiftedCutFinds(tag1: string, l1: Level, rest: string)
    requires LowerAsciiString(tag1) == LevelName(l1)
    ensures FindLevel("[" + tag1 + ("]" + (" " + rest)), 0) == Some((0, l1))
  {
    TagAfter("[", tag1, l1, " " + rest);
    FindLevelFinds("[" + tag1 + ("]" + (" " + rest)), 0, l1);
  }

  lemma ShiftedCutTail(tag1: string, rest: string)
    ensures ("[" + tag1 + ("]" + (" " + rest)))[|tag1| + 2..] == " " + rest
  {
    var cut := "[" + tag1 + ("]" + (" " + rest));
    assert cut == ("[" + tag1 + "]") + (" " + rest);
  }

  /** Such a line parses with the timestamp `<ts>` and the level of `<TAG2>`, the tag that decided
      it; yet the message loses `[<TAG1>]`, which only became a tag once the timestamp was cut
      out, and keeps `[<TAG2>]`. */
  lemma ShiftedTagParse(ts: string, tag1: string, l1: Level, tag2: string, l2: Level, msg: string, kind: string)
    requires IsStampText(ts)
    requires LowerAsciiString(tag1) == LevelName(l1) && LowerAsciiString(tag2) == LevelName(l2)
    ensures ParseLogLine(ShiftedLine(ts, tag1, tag2, msg), kind)
      == Some(Entry(ts, l2, Trim("[" + tag2 + "] " + msg), kind, StyleOf(l2).icon, StyleOf(l2).color, StyleOf(l2).weight))
  {
    var line := ShiftedLine(ts, tag1, tag2, msg);
    ShiftedStamp(ts, tag1, tag2, msg);
    ShiftedLevel(ts, tag1, l1, tag2, l2, msg);
    ShiftedCleanup(ts, tag1, l1, tag2, msg);
    ParsedAs(line, kind, |ts| + 3, |ts| + |tag1| + 5, l2, ts, Trim("[" + tag2 + "] " + msg));
  }

  /** A line whose leftmost timestamp match starts at 1 and ends at j parses to that capture. */
  lemma ParsedAs(line: string, kind: string, j: nat, k: nat, l: Level, ts: string, m: string)
    requires FindStamp(line, 0) == Some((1, j)) && FindLevel(line, 0) == Some((k, l))
    requires j == |ts| + 3 && j <= |line| && line[2..|ts| + 2] == ts && MessageOf(line, 1, j) == m
    ensures ParseLogLine(line, kind) == Some(Entry(ts, l, m, kind, StyleOf(l).icon, StyleOf(l).color, StyleOf(l).weight))
  {
    ParsedFields(line, kind, 1, j, k, l);
  }

  /** The instance `[[2026]ERROR] [INFO] x`: timestamp `2026`, level info, message `[INFO] x`. */
  lemma ShiftedTagExample(kind: string)
    ensures ParseLogLine(ShiftedLine("2026", "ERROR", "INFO", "x"), kind)
      == Some(Entry("2026", Info, "[INFO] x", kind, StyleOf(Info).icon, StyleOf(Info).color, StyleOf(Info).weight))
  {
    assert IsStampText("2026");
    ShiftedExampleTags();
    ShiftedTagParse("2026", "ERROR", Error, "INFO", Info, "x", kind);
    ShiftedExampleMessage();
  }

  /** The example line, written out. */
  lemma ShiftedExampleLine()
    ensures ShiftedLine("2026", "ERROR", "INFO", "x") == "[[2026]ERROR] [INFO] x"
  {
    assert "[" + ("[" + "2026" + "]") == "[[2026]";
    assert "ERROR" + "] " == "ERROR] ";
    assert "[" + "INFO" + "] " + "x" == "[INFO] x";
    assert "[[2026]" + "ERROR] " == "[[2026]ERROR] ";
  }

  lemma ShiftedExampleTags()
    ensures LowerAsciiString("ERROR") == LevelName(Error) && LowerAsciiString("INFO") == LevelName(Info)
  {
    assert LowerAsciiString("ERROR") == "error";
    assert LowerAsciiString("INFO") == "info";
  }

  lemma ShiftedExampleMessage()
    ensures Trim("[" + "INFO" + "] " + "x") == "[INFO] x"
  {
    var rest := "[INFO] x";
    assert "[" + "INFO" + "] " + "x" == rest;
    assert TrimStart(rest) == rest by {
      assert !IsJsWhitespace(rest[0]);
    }
    assert TrimEnd(rest) == rest by {
      assert !IsJsWhitespace(rest[|rest| - 1]);
    }
  }

  // ---- reading one log file ----

  /** `LOG_SOURCES`: the file each kind of log is read from. */
  datatype LogSource = LogSource(path: string, kind: string)

  const LogSources: seq<LogSource> := [
    LogSource("./logs/deployment.log", "deployment"),
    LogSource("./logs/monitoring.log", "monitoring"),
    LogSource("./logs/security.log", "security"),
    LogSource("./logs/ghost-buster.log", "ghost-buster")
  ]

  /** A source as the script finds it on disk: the file's text, or nothing when the file is
      missing or reading it fails. */
  datatype SourceFile = SourceFile(source: LogSource, content: Option<string>)

  function IndexOfNewline(s: string): (i: nat)
    requires '\n' in s
    ensures i < |s| && s[i] == '\n' && '\n' !in s[..i]
  {
    if s[0] == '\n' then 0 else 1 + IndexOfNewline(s[1..])
  }

  /** `content.split('\n')`: the pieces between line feeds, an empty piece where two line feeds
      meet or one ends the text. */
  function SplitLines(s: string): (lines: seq<string>)
    ensures |lines| >= 1
    ensures forall k :: 0 <= k < |lines| ==> '\n' !in lines[k]
    decreases |s|
  {
    if '\n' !in s then [s]
    else
      var i := IndexOfNewline(s);
      [s[..i]] + SplitLines(s[i + 1..])
  }

  function JoinLines(lines: seq<string>): string
    requires |lines| >= 1
  {
    if |lines| == 1 then lines[0] else lines[0] + "\n" + JoinLines(lines[1..])
  }

  /** Splitting loses nothing: joining the pieces with line feeds gives the text back. */
  lemma {:induction false} SplitJoin(s: string)
    ensures JoinLines(SplitLines(s)) == s
    decreases |s|
  {
    if '\n' in s {
      var i := IndexOfNewline(s);
      var rest := SplitLines(s[i + 1..]);
      var lines := SplitLines(s);
      assert lines == [s[..i]] + rest;
      assert lines[1..] == rest;
      SplitJoin(s[i + 1..]);
      assert JoinLines(lines) == s[..i] + "\n" + JoinLines(rest);
      assert s == s[..i] + "\n" + s[i + 1..];
    }
  }

  /** The test of `filter(l => l.trim())`: the trimmed line is not empty. */
  predicate IsNotBlank(line: string) {
    Trim(line) != []
  }

  /** `parseLogLine` with the file's kind fixed. */
  function Parser(kind: string): string -> Option<Entry> {
    line => ParseLogLine(line, kind)
  }

  /** A blank line has no `[`, so it never parses: filtering blank lines out first changes nothing. */
  lemma BlankFilterRedundant(lines: seq<string>, kind: string)
    ensures Lists.FilterMap(Lists.Filter(lines, IsNotBlank), Parser(kind)) == Lists.FilterMap(lines, Parser(kind))
  {
    forall line | line in lines && !IsNotBlank(line) ensures Parser(kind)(line).None? {
      BlankNeverParses(line, kind);
    }
    Lists.FilterMapSkipsFiltered(lines, IsNotBlank, Parser(kind));
  }

  lemma BlankNeverParses(line: string, kind: string)
    requires Trim(line) == []
    ensures ParseLogLine(line, kind).None?
  {
    TrimEmptyIffBlank(line);
    ParseLogLineSpec(line, kind);
  }

  /** `readLogFile`: no entries for a missing or unreadable file, otherwise the entries of its
      non-blank lines in file order. */
  function ReadLogFile(f: SourceFile): seq<Entry>
  {
    match f.content
    case None => []
    case Some(text) => Lists.FilterMap(Lists.Filter(SplitLines(text), IsNotBlank), Parser(f.source.kind))
  }

  /** A file's entries are exactly those of its lines that parse, blank or not, in file order;
      each comes from one of its lines and carries the file's kind. A missing or unreadable file
      has none. */
  lemma ReadLogFileSpec(f: SourceFile)
    ensures f.content.None? ==> ReadLogFile(f) == []
    ensures f.content.Some? ==> ReadLogFile(f) == Lists.FilterMap(SplitLines(f.content.value), Parser(f.source.kind))
    ensures forall e :: e in ReadLogFile(f) ==> e.source == f.source.kind
    ensures forall e :: e in ReadLogFile(f) && f.content.Some? ==>
              exists k :: 0 <= k < |SplitLines(f.content.value)| && ParseLogLine(SplitLines(f.content.value)[k], f.source.kind) == Some(e)
  {
    if f.content.Some? {
      var lines := SplitLines(f.content.value);
      BlankFilterRedundant(lines, f.source.kind);
      forall e | e in ReadLogFile(f)
        ensures e.source == f.source.kind
        ensures exists k :: 0 <= k < |lines| && ParseLogLine(lines[k], f.source.kind) == Some(e)
      {
        Lists.FilterMapOrigin(lines, Parser(f.source.kind), e);
        var k :| 0 <= k < |lines| && Parser(f.source.kind)(lines[k]) == Some(e);
        ParsedEntryStyle(lines[k], f.source.kind);
      }
    }
  }

  // ---- aggregating ----

  /** The entries of all files, file after file, each file's in line order. */
  function AllEntries(files: seq<SourceFile>): seq<Entry>
  {
    if files == [] then [] else AllEntries(files[..|files| - 1]) + ReadLogFile(files[|files| - 1])
  }

  /** The sort key: `new Date(timestamp)` as milliseconds, given by the caller's date parser. */
  function NewestFirstKey(dateOf: string -> int): Entry -> int {
    (e: Entry) => dateOf(e.timestamp)
  }

  /** `aggregateLogs`: the entries of every file concatenated in source order, sorted newest first,
      the newest `MAX_ENTRIES` kept. */
  method AggregateLogs(files: seq<SourceFile>, dateOf: string -> int) returns (entries: seq<Entry>)
    ensures entries == Lists.Take(Ordering.SortDesc(AllEntries(files), NewestFirstKey(dateOf)), MaxEntries)
    ensures |entries| == if |AllEntries(files)| <= MaxEntries then |AllEntries(files)| else MaxEntries
    ensures Ordering.SortedDesc(entries, NewestFirstKey(dateOf))
    ensures multiset(entries) <= multiset(AllEntries(files))
  {
    var all: seq<Entry> := [];
    var i := 0;
    while i < |files|
      invariant 0 <= i <= |files|
      invariant all == AllEntries(files[..i])
    {
      assert files[..i + 1][..i] == files[..i];
      all := all + ReadLogFile(files[i]);
      i := i + 1;
    }
    assert files[..|files|] == files;
    var sorted := Ordering.SortDesc(all, NewestFirstKey(dateOf));
    entries := Lists.Take(sorted, MaxEntries);
    TakeKeepsOrder(sorted, MaxEntries, NewestFirstKey(dateOf));
    assert sorted == entries + sorted[|entries|..];
    assert multiset(sorted) == multiset(entries) + multiset(sorted[|entries|..]);
  }

  lemma TakeKeepsOrder<T>(s: seq<T>, n: nat, key: T -> int)
    requires Ordering.SortedDesc(s, key)
    ensures Ordering.SortedDesc(Lists.Take(s, n), key)
    ensures forall i, j :: 0 <= i < |Lists.Take(s, n)| <= j < |s| ==> key(s[i]) >= key(s[j])
  {
  }

  // ---- statistics ----

  datatype Stats = Stats(total: nat, errors: nat, warnings: nat, infos: nat, successes: nat,
                         bySource: map<string, nat>)

  function CountLevel(es: seq<Entry>, l: Level): (n: nat)
    ensures n <= |es|
  {
    if es == [] then 0 else (if es[0].level == l then 1 else 0) + CountLevel(es[1..], l)
  }

  function CountSource(es: seq<Entry>, src: string): (n: nat)
    ensures n <= |es|
  {
    if es == [] then 0 else CountSource(es[..|es| - 1], src) + (if es[|es| - 1].source == src then 1 else 0)
  }

  function SourcesOf(es: seq<Entry>): set<string> {
    set e | e in es :: e.source
  }

  /** Every entry has exactly one of the four levels, so the level counts add up to the total. */
  lemma {:induction false} LevelCountsSumToTotal(es: seq<Entry>)
    ensures CountLevel(es, Error) + CountLevel(es, Warning) + CountLevel(es, Info) + CountLevel(es, Success) == |es|
    decreases |es|
  {
    if es != [] {
      LevelCountsSumToTotal(es[1..]);
    }
  }

  /** The sum of a map's values. */
  ghost function SumValues(m: map<string, nat>): nat
    decreases |m|
  {
    if m == map[] then 0
    else
      var k :| k in m;
      assert |m - {k}| < |m| by { assert (m - {k}).Keys == m.Keys - {k}; }
      m[k] + SumValues(m - {k})
  }

  lemma {:induction false} SumValuesRemove(m: map<string, nat>, k: string)
    requires k in m
    ensures SumValues(m) == m[k] + SumValues(m - {k})
    decreases |m|
  {
    var k' :| k' in m && SumValues(m) == m[k'] + SumValues(m - {k'});
    if k' != k {
      assert (m - {k'}).Keys == m.Keys - {k'};
      SumValuesRemove(m - {k'}, k);
      assert (m - {k}).Keys == m.Keys - {k};
      SumValuesRemove(m - {k}, k');
      assert m - {k'} - {k} == m - {k} - {k'};
    }
  }

  /** Counting one more entry of a source adds one to the sum of the counts. */
  lemma SumValuesBump(m: map<string, nat>, src: string)
    ensures SumValues(m[src := if src in m then m[src] + 1 else 1]) == SumValues(m) + 1
  {
    var m' := m[src := if src in m then m[src] + 1 else 1];
    SumValuesRemove(m', src);
    if src in m {
      SumValuesRemove(m, src);
      assert m' - {src} == m - {src};
    } else {
      assert m' - {src} == m;
    }
  }

  /** The per-source counts as `bySource` ends up after counting `es` in order. */
  function CountsBySource(es: seq<Entry>): map<string, nat>
  {
    if es == [] then map[]
    else
      var m := CountsBySource(es[..|es| - 1]);
      var src := es[|es| - 1].source;
      m[src := if src in m then m[src] + 1 else 1]
  }

  /** Exactly the sources that occur are keys. */
  lemma {:induction false} CountsBySourceKeys(es: seq<Entry>)
    ensures CountsBySource(es).Keys == SourcesOf(es)
    decreases |es|
  {
    if es != [] {
      var prefix := es[..|es| - 1];
      CountsBySourceKeys(prefix);
      assert es == prefix + [es[|es| - 1]];
      assert SourcesOf(es) == SourcesOf(prefix) + {es[|es| - 1].source};
    }
  }

  /** Each key is mapped to its source's number of entries, which is positive. */
  lemma {:induction false} CountsBySourceCounts(es: seq<Entry>)
    ensures forall src :: src in CountsBySource(es) ==> CountsBySource(es)[src] == CountSource(es, src) > 0
    decreases |es|
  {
    if es != [] {
      var prefix := es[..|es| - 1];
      var src := es[|es| - 1].source;
      CountsBySourceCounts(prefix);
      if src !in CountsBySource(prefix) {
        CountsBySourceKeys(prefix);
        CountSourceAbsent(prefix, src);
      }
    }
  }

  /** The counts add up to the number of entries. */
  lemma {:induction false} CountsBySourceSum(es: seq<Entry>)
    ensures SumValues(CountsBySource(es)) == |es|
    decreases |es|
  {
    if es != [] {
      var prefix := es[..|es| - 1];
      CountsBySourceSum(prefix);
      SumValuesBump(CountsBySource(prefix), es[|es| - 1].source);
    }
  }

  /** Exactly the sources that occur are keys, each mapped to its number of entries, and the
      counts add up to the number of entries. */
  lemma CountsBySourceSpec(es: seq<Entry>)
    ensures CountsBySource(es).Keys == SourcesOf(es)
    ensures forall src :: src in CountsBySource(es) ==> CountsBySource(es)[src] == CountSource(es, src) > 0
    ensures SumValues(CountsBySource(es)) == |es|
  {
    CountsBySourceKeys(es);
    CountsBySourceCounts(es);
    CountsBySourceSum(es);
  }

  /** `calculateStats`: the total, the count of each level, and the count of each source that
      occurs; the source counts add up to the total, as the level counts do. */
  method CalculateStats(entries: seq<Entry>) returns (stats: Stats)
    ensures stats.total == |entries|
    ensures stats.errors == CountLevel(entries, Error) && stats.warnings == CountLevel(entries, Warning)
    ensures stats.infos == CountLevel(entries, Info) && stats.successes == CountLevel(entries, Success)
    ensures stats.errors + stats.warnings + stats.infos + stats.successes == stats.total
    ensures stats.bySource == CountsBySource(entries)
    ensures stats.bySource.Keys == SourcesOf(entries)
    ensures forall src :: src in stats.bySource ==> stats.bySource[src] == CountSource(entries, src) > 0
    ensures SumValues(stats.bySource) == stats.total
  {
    var bySource: map<string, nat> := map[];
    var i := 0;
    while i < |entries|
      invariant 0 <= i <= |entries|
      invariant bySource == CountsBySource(entries[..i])
    {
      var src := entries[i].source;
      assert entries[..i + 1][..i] == entries[..i];
      if src !in bySource {
        bySource := bySource[src := 1];
      } else {
        bySource := bySource[src := bySource[src] + 1];
      }
      i := i + 1;
    }
    assert entries[..|entries|] == entries;
    CountsBySourceSpec(entries);
    LevelCountsSumToTotal(entries);
    stats := Stats(|entries|, CountLevel(entries, Error), CountLevel(entries, Warning),
                   CountLevel(entries, Info), CountLevel(entries, Success), bySource);
  }

  lemma {:induction false} CountSourceAbsent(es: seq<Entry>, src: string)
    requires src !in SourcesOf(es)
    ensures CountSource(es, src) == 0
    decreases |es|
  {
    if es != [] {
      assert SourcesOf(es[..|es| - 1]) <= SourcesOf(es);
      CountSourceAbsent(es[..|es| - 1], src);
      assert es[|es| - 1] in es;
    }
  }

  // ---- the fallback ----

  /** `createMockLogs`: four fixed entries stamped now and one, two and three minutes earlier;
      `isoOf` renders a time as `toISOString` does. */
  function MockEntries(now: int, isoOf: int -> string): seq<Entry> {
    [ Entry(isoOf(now), Success, "System started successfully", "deployment", "✅", "green", 1),
      Entry(isoOf(now - 60000), Info, "Database connection established", "monitoring", "📊", "cyan", 2),
      Entry(isoOf(now - 120000), Success, "Ghost-Buster scan completed - No threats detected", "ghost-buster", "✅", "green", 1),
      Entry(isoOf(now - 180000), Info, "RLS policies activated (30+ rules)", "security", "📊", "cyan", 2) ]
  }

  /** The fallback entries carry their level's style, as parsed entries do. */
  lemma MockEntriesStyled(now: int, isoOf: int -> string)
    ensures forall e :: e in MockEntries(now, isoOf) ==>
              e.icon == StyleOf(e.level).icon && e.color == StyleOf(e.level).color && e.weight == StyleOf(e.level).weight
  {
  }

  /** The fallback entries come one from each kind of log. */
  lemma MockEntriesSources(now: int, isoOf: int -> string)
    ensures SourcesOf(MockEntries(now, isoOf)) == set s | s in LogSources :: s.kind
  {
    var m := MockEntries(now, isoOf);
    assert SourcesOf(m) == {"deployment", "monitoring", "ghost-buster", "security"} by {
      assert m[0] in m && m[1] in m && m[2] in m && m[3] in m;
    }
    LogSourceKinds();
  }

  lemma LogSourceKinds()
    ensures (set s | s in LogSources :: s.kind) == {"deployment", "monitoring", "security", "ghost-buster"}
  {
    assert LogSources[0] in LogSources && LogSources[1] in LogSources;
    assert LogSources[2] in LogSources && LogSources[3] in LogSources;
  }

  /** The fallback entries are two successes and two infos, no errors or warnings. */
  lemma MockEntriesLevels(now: int, isoOf: int -> string)
    ensures CountLevel(MockEntries(now, isoOf), Success) == 2 && CountLevel(MockEntries(now, isoOf), Info) == 2
    ensures CountLevel(MockEntries(now, isoOf), Error) == 0 && CountLevel(MockEntries(now, isoOf), Warning) == 0
  {
    var m := MockEntries(now, isoOf);
    assert m[1..][1..][1..][1..] == [];
    assert CountLevel(m[3..], Info) == 1 && CountLevel(m[2..], Info) == 1 && CountLevel(m[1..], Info) == 2;
    assert CountLevel(m[3..], Success) == 0 && CountLevel(m[2..], Success) == 1 && CountLevel(m[1..], Success) == 1;
    LevelCountsSumToTotal(m);
  }

  /** `main`: the aggregated entries, or the fallback entries when there are none; what the
      output file then holds is never empty, and its stats count exactly those entries, by
      level and by source. */
  method Aggregate(files: seq<SourceFile>, dateOf: string -> int, now: int, isoOf: int -> string)
    returns (entries: seq<Entry>, stats: Stats)
    ensures var found := Lists.Take(Ordering.SortDesc(AllEntries(files), NewestFirstKey(dateOf)), MaxEntries);
            entries == if found == [] then MockEntries(now, isoOf) else found
    ensures 0 < |entries| <= MaxEntries
    ensures stats.total == |entries| && SumValues(stats.bySource) == |entries|
    ensures stats.errors == CountLevel(entries, Error) && stats.warnings == CountLevel(entries, Warning)
    ensures stats.infos == CountLevel(entries, Info) && stats.successes == CountLevel(entries, Success)
    ensures stats.bySource == CountsBySource(entries)
  {
    entries := AggregateLogs(files, dateOf);
    if |entries| == 0 {
      entries := MockEntries(now, isoOf);
    }
    stats := CalculateStats(entries);
  }
}
