/** Reading one line of the server log: `split(" ", 3)`, the level, the
    two-word timestamp and the message, with a fallback entry when the
    timestamp does not parse. */
module LogParse {
  import opened Wrappers
  import Text

  /** A moment as the log viewer compares it: day ordinal, then second of
      the day.  datetime values order this way. */
  datatype DateTime = DateTime(day: int, second: int)

  predicate NotAfter(a: DateTime, b: DateTime) {
    a.day < b.day || (a.day == b.day && a.second <= b.second)
  }

  /** strptime with the format "%Y-%m-%d %H:%M:%S": None when it raises. */
  type TimestampParser = string -> Option<DateTime>

  /** A parsed log line.  An unparsable line keeps its text as the message
      and has an empty level and no timestamp. */
  datatype LogEntry = LogEntry(level: string, timestamp: Option<DateTime>, message: string, raw: string)

  /** Index of the first space of `s`, or |s| when there is none. */
  function SpaceIndex(s: string): (i: nat)
    ensures i <= |s|
  {
    if s == [] || s[0] == ' ' then 0 else 1 + SpaceIndex(s[1..])
  }

  /** SpaceIndex finds the first space, and finds none only when there is
      none. */
  lemma {:induction false} SpaceIndexFacts(s: string)
    ensures SpaceIndex(s) < |s| ==> s[SpaceIndex(s)] == ' '
    ensures Text.Count(s[..SpaceIndex(s)], ' ') == 0
    ensures SpaceIndex(s) == |s| <==> Text.Count(s, ' ') == 0
  {
    if s != [] && s[0] != ' ' {
      SpaceIndexFacts(s[1..]);
      var i := SpaceIndex(s[1..]);
      assert s[..i + 1] == [s[0]] + s[1..][..i];
      Text.CountAppend([s[0]], s[1..][..i], ' ');
      assert s == [s[0]] + s[1..];
      Text.CountAppend([s[0]], s[1..], ' ');
    }
  }

  /** `s.split(" ", maxsplit)`: cut at the first `maxsplit` spaces, each one
      separately, so runs of spaces give empty parts. */
  function SplitOnSpace(s: string, maxsplit: nat): (parts: seq<string>)
    ensures 1 <= |parts| <= maxsplit + 1
    decreases maxsplit
  {
    var i := SpaceIndex(s);
    if maxsplit == 0 || i == |s| then [s]
    else [s[..i]] + SplitOnSpace(s[i + 1..], maxsplit - 1)
  }

  /** The split one level down: the text before the first space, then the
      split of the rest. */
  lemma SplitStep(s: string, maxsplit: nat)
    requires maxsplit != 0 && SpaceIndex(s) < |s|
    ensures SplitOnSpace(s, maxsplit) == [s[..SpaceIndex(s)]] + SplitOnSpace(s[SpaceIndex(s) + 1..], maxsplit - 1)
  {
  }

  /** The line is the text before its first space, the space, and the rest. */
  lemma SpaceSplitsLine(s: string)
    requires SpaceIndex(s) < |s|
    ensures var i := SpaceIndex(s);
            s == s[..i] + " " + s[i + 1..] && Text.Count(s[..i], ' ') == 0
  {
    SpaceIndexFacts(s);
    CutAtSpace(s, SpaceIndex(s));
  }

  lemma CutAtSpace(s: string, i: nat)
    requires i < |s| && s[i] == ' '
    ensures s == s[..i] + " " + s[i + 1..]
  {
    assert s[..i] + " " + s[i + 1..] == s[..i] + [s[i]] + s[i + 1..];
  }

  /** Cutting at the first space leaves one space fewer in the rest. */
  lemma CountAtSpace(s: string)
    requires SpaceIndex(s) < |s|
    ensures Text.Count(s, ' ') == Text.Count(s[SpaceIndex(s) + 1..], ' ') + 1
  {
    var i := SpaceIndex(s);
    SpaceSplitsLine(s);
    CountAroundSpace(s[..i], s[i + 1..]);
  }

  /** Joining the parts with single spaces gives back the line. */
  lemma {:induction false} SplitOnSpaceJoins(s: string, maxsplit: nat)
    ensures Text.Join(SplitOnSpace(s, maxsplit), " ") == s
    decreases maxsplit
  {
    if maxsplit != 0 && SpaceIndex(s) < |s| {
      var i := SpaceIndex(s);
      SplitStep(s, maxsplit);
      SpaceSplitsLine(s);
      var rest := SplitOnSpace(s[i + 1..], maxsplit - 1);
      SplitOnSpaceJoins(s[i + 1..], maxsplit - 1);
      JoinedBack(s, s[..i], s[i + 1..], rest);
    } else {
      assert Text.Join([s], " ") == s;
    }
  }

  lemma JoinedBack(s: string, a: string, b: string, rest: seq<string>)
    requires s == a + " " + b && rest != [] && Text.Join(rest, " ") == b
    ensures Text.Join([a] + rest, " ") == s
  {
    JoinCons(a, rest);
  }

  /** Every part but the last is free of spaces. */
  lemma {:induction false} SplitOnSpaceParts(s: string, maxsplit: nat)
    ensures forall k :: 0 <= k < |SplitOnSpace(s, maxsplit)| - 1 ==> Text.Count(SplitOnSpace(s, maxsplit)[k], ' ') == 0
    decreases maxsplit
  {
    if maxsplit != 0 && SpaceIndex(s) < |s| {
      var i := SpaceIndex(s);
      SplitStep(s, maxsplit);
      SpaceIndexFacts(s);
      var rest := SplitOnSpace(s[i + 1..], maxsplit - 1);
      SplitOnSpaceParts(s[i + 1..], maxsplit - 1);
      var parts := [s[..i]] + rest;
      forall k | 0 <= k < |parts| - 1 ensures Text.Count(parts[k], ' ') == 0 {
        if k > 0 { assert parts[k] == rest[k - 1]; }
      }
    }
  }

  /** The level never contains a space. */
  lemma FirstPartHasNoSpace(s: string, maxsplit: nat)
    requires maxsplit != 0
    ensures ' ' !in SplitOnSpace(s, maxsplit)[0]
  {
    SpaceIndexFacts(s);
    if SpaceIndex(s) < |s| {
      SplitStep(s, maxsplit);
      SpaceSplitsLine(s);
      Text.CountZero(s[..SpaceIndex(s)], ' ');
    } else {
      Text.CountZero(s, ' ');
    }
  }

  /** Join of a part followed by at least one more. */
  lemma JoinCons(a: string, rest: seq<string>)
    requires rest != []
    ensures Text.Join([a] + rest, " ") == a + " " + Text.Join(rest, " ")
  {
    var parts := [a] + rest;
    assert parts[0] == a && parts[1..] == rest;
  }

  /** There are as many parts as spaces, up to the limit, plus one. */
  lemma {:induction false} SplitOnSpaceCount(s: string, maxsplit: nat)
    ensures |SplitOnSpace(s, maxsplit)| == Least(Text.Count(s, ' '), maxsplit) + 1
    decreases maxsplit
  {
    if maxsplit != 0 && SpaceIndex(s) < |s| {
      var rest := s[SpaceIndex(s) + 1..];
      SplitOnSpaceCount(rest, maxsplit - 1);
      SplitCountStep(s, rest, maxsplit);
    } else if maxsplit != 0 {
      SpaceIndexFacts(s);
    }
  }

  lemma SplitCountStep(s: string, rest: string, maxsplit: nat)
    requires maxsplit != 0 && SpaceIndex(s) < |s| && rest == s[SpaceIndex(s) + 1..]
    requires |SplitOnSpace(rest, maxsplit - 1)| == Least(Text.Count(rest, ' '), maxsplit - 1) + 1
    ensures |SplitOnSpace(s, maxsplit)| == Least(Text.Count(s, ' '), maxsplit) + 1
  {
    SplitStep(s, maxsplit);
    CountAtSpace(s);
  }

  function Least(a: nat, b: nat): nat {
    if a < b then a else b
  }

  /** Rebuilding a line from at most four parts; the second and third are
      the timestamp text. */
  function TimestampText(parts: seq<string>): string {
    if |parts| <= 1 then [] else Text.Join(parts[1..(if |parts| < 3 then |parts| else 3)], " ")
  }

  /** parse_log_line. */
  function ParseLogLine(line: string, strptime: TimestampParser): (e: LogEntry)
    ensures e.raw == line
    ensures e.timestamp.None? ==> e.level == [] && e.message == line
    ensures e.timestamp.Some? ==> ' ' !in e.level
    ensures e.timestamp == strptime(TimestampText(SplitOnSpace(line, 3)))
  {
    var parts := SplitOnSpace(line, 3);
    FirstPartHasNoSpace(line, 3);
    match strptime(TimestampText(parts))
    case None => LogEntry([], None, line, line)
    case Some(dt) => LogEntry(parts[0], Some(dt), if |parts| > 3 then parts[3] else [], line)
  }

  /** The converse of the decomposition: a line made of a level word, a
      date word and a time word, optionally followed by a message, whose
      date and time parse together, is parsed into exactly those fields;
      so is a level word followed by one timestamp word that parses. */
  lemma WellFormedLineParses(level: string, date: string, time: string, message: string,
                             strptime: TimestampParser)
    requires ' ' !in level && ' ' !in date && ' ' !in time
    ensures strptime(date + " " + time).Some? ==>
              var line := level + " " + date + " " + time + " " + message;
              ParseLogLine(line, strptime) == LogEntry(level, strptime(date + " " + time), message, line)
    ensures strptime(date + " " + time).Some? ==>
              var line := level + " " + date + " " + time;
              ParseLogLine(line, strptime) == LogEntry(level, strptime(date + " " + time), [], line)
    ensures strptime(date).Some? ==>
              var line := level + " " + date;
              ParseLogLine(line, strptime) == LogEntry(level, strptime(date), [], line)
  {
    if strptime(date + " " + time).Some? {
      FourWordLineParses(level, date, time, message, strptime);
      ThreeWordLineParses(level, date, time, strptime);
    }
    if strptime(date).Some? {
      TwoWordLineParses(level, date, strptime);
    }
  }

  lemma FourWordLineParses(level: string, date: string, time: string, message: string, strptime: TimestampParser)
    requires ' ' !in level && ' ' !in date && ' ' !in time && strptime(date + " " + time).Some?
    ensures var line := level + " " + date + " " + time + " " + message;
            ParseLogLine(line, strptime) == LogEntry(level, strptime(date + " " + time), message, line)
  {
    FourWordSplit(level, date, time, message);
    FourPartsJoin([level, date, time, message]);
  }

  lemma ThreeWordLineParses(level: string, date: string, time: string, strptime: TimestampParser)
    requires ' ' !in level && ' ' !in date && ' ' !in time && strptime(date + " " + time).Some?
    ensures var line := level + " " + date + " " + time;
            ParseLogLine(line, strptime) == LogEntry(level, strptime(date + " " + time), [], line)
  {
    ThreeWordSplit(level, date, time);
    ThreePartsJoin([level, date, time]);
  }

  lemma TwoWordLineParses(level: string, date: string, strptime: TimestampParser)
    requires ' ' !in level && ' ' !in date && strptime(date).Some?
    ensures var line := level + " " + date;
            ParseLogLine(line, strptime) == LogEntry(level, strptime(date), [], line)
  {
    SplitAfterWord(level, date, 3);
    WordSplit(date, 2);
    TwoPartsJoin([level, date]);
  }

  lemma FourWordSplit(level: string, date: string, time: string, message: string)
    requires ' ' !in level && ' ' !in date && ' ' !in time
    ensures SplitOnSpace(level + " " + date + " " + time + " " + message, 3) == [level, date, time, message]
  {
    var tail := time + " " + message;
    var rest := date + " " + tail;
    Regroup(level + " " + date, time, message);
    Regroup(level, date, tail);
    SplitAfterWord(level, rest, 3);
    SplitAfterWord(date, tail, 2);
    SplitAfterWord(time, message, 1);
  }

  /** Moving the parentheses of a space-joined text to the right. */
  lemma Regroup(a: string, b: string, c: string)
    ensures a + " " + b + " " + c == a + " " + (b + " " + c)
  {
  }

  lemma ThreeWordSplit(level: string, date: string, time: string)
    requires ' ' !in level && ' ' !in date && ' ' !in time
    ensures SplitOnSpace(level + " " + date + " " + time, 3) == [level, date, time]
  {
    assert level + " " + date + " " + time == level + " " + (date + " " + time);
    SplitAfterWord(level, date + " " + time, 3);
    SplitAfterWord(date, time, 2);
    WordSplit(time, 1);
  }

  /** A word followed by a space is split off as the first part. */
  lemma SplitAfterWord(word: string, rest: string, maxsplit: nat)
    requires ' ' !in word && maxsplit != 0
    ensures SplitOnSpace(word + " " + rest, maxsplit) == [word] + SplitOnSpace(rest, maxsplit - 1)
  {
    var s := word + " " + rest;
    SpaceIndexOfWord(word, " " + rest);
    assert s == word + (" " + rest);
    assert SpaceIndex(s) == |word| && s[..|word|] == word && s[|word| + 1..] == rest;
  }

  /** A word without spaces is a single part. */
  lemma WordSplit(word: string, maxsplit: nat)
    requires ' ' !in word
    ensures SplitOnSpace(word, maxsplit) == [word]
  {
    SpaceIndexOfWord(word, []);
    assert word + [] == word;
  }

  /** The first space after a word without spaces is right after it. */
  lemma {:induction false} SpaceIndexOfWord(word: string, rest: string)
    requires ' ' !in word && (rest == [] || rest[0] == ' ')
    ensures SpaceIndex(word + rest) == |word|
  {
    if word != [] {
      assert (word + rest)[0] == word[0] && (word + rest)[1..] == word[1..] + rest;
      assert word[0] in word;
      SpaceIndexOfWord(word[1..], rest);
    } else {
      assert word + rest == rest;
    }
  }

  /** A line that parses is its level, one space, a timestamp text that
      parses to the entry's timestamp, and, when the line has at least
      three spaces, one more space and the message, which may contain
      spaces of its own.  With two spaces the timestamp text is the rest
      of the line, with one space a single word; with none the whole line
      is the level and the empty text was what parsed. */
  lemma ParsedLineDecomposes(line: string, strptime: TimestampParser)
    requires ParseLogLine(line, strptime).timestamp.Some?
    ensures var e := ParseLogLine(line, strptime);
            Text.Count(line, ' ') >= 3 ==>
              exists ts :: line == e.level + " " + ts + " " + e.message &&
                           Text.Count(ts, ' ') == 1 && strptime(ts) == e.timestamp
    ensures var e := ParseLogLine(line, strptime);
            Text.Count(line, ' ') == 2 ==>
              exists ts :: line == e.level + " " + ts && Text.Count(ts, ' ') == 1 && strptime(ts) == e.timestamp
    ensures var e := ParseLogLine(line, strptime);
            Text.Count(line, ' ') == 1 ==>
              exists ts :: line == e.level + " " + ts && Text.Count(ts, ' ') == 0 && strptime(ts) == e.timestamp
    ensures var e := ParseLogLine(line, strptime);
            Text.Count(line, ' ') == 0 ==> e.level == line && strptime([]) == e.timestamp
    ensures Text.Count(line, ' ') < 3 ==> ParseLogLine(line, strptime).message == []
  {
    var parts := SplitOnSpace(line, 3);
    SplitOnSpaceCount(line, 3);
    SplitOnSpaceJoins(line, 3);
    SplitOnSpaceParts(line, 3);
    var spaces := Text.Count(line, ' ');
    if spaces >= 3 {
      assert |parts| == 4;
      FourPartsJoin(parts);
      var ts := parts[1] + " " + parts[2];
      assert Text.Count(parts[1], ' ') == 0 && Text.Count(parts[2], ' ') == 0;
      CountAroundSpace(parts[1], parts[2]);
      WitnessTimestamp(line, parts, ts, strptime);
    } else if spaces == 2 {
      assert |parts| == 3;
      ThreePartsJoin(parts);
      var ts := parts[1] + " " + parts[2];
      assert Text.Count(parts[0], ' ') == 0;
      CountAroundSpace(parts[0], ts);
      WitnessShortTimestamp(line, parts, ts, strptime);
    } else if spaces == 1 {
      assert |parts| == 2;
      TwoPartsJoin(parts);
      assert Text.Count(parts[0], ' ') == 0;
      CountAroundSpace(parts[0], parts[1]);
      WitnessShortTimestamp(line, parts, parts[1], strptime);
    } else {
      assert |parts| == 1 && parts[0] == line;
    }
  }

  lemma WitnessShortTimestamp(line: string, parts: seq<string>, ts: string, strptime: TimestampParser)
    requires 2 <= |parts| <= 3 && parts == SplitOnSpace(line, 3)
    requires line == parts[0] + " " + ts && TimestampText(parts) == ts && strptime(ts).Some?
    ensures var e := ParseLogLine(line, strptime);
            exists ts' :: line == e.level + " " + ts' && Text.Count(ts', ' ') == Text.Count(ts, ' ') &&
                          strptime(ts') == e.timestamp
  {
    var e := ParseLogLine(line, strptime);
    assert e.level == parts[0] && e.timestamp == strptime(ts);
  }

  lemma TwoPartsJoin(parts: seq<string>)
    requires |parts| == 2
    ensures TimestampText(parts) == parts[1]
    ensures Text.Join(parts, " ") == parts[0] + " " + parts[1]
  {
    assert parts[1..2] == [parts[1]];
    assert parts == [parts[0]] + [parts[1]];
    JoinCons(parts[0], [parts[1]]);
  }

  lemma ThreePartsJoin(parts: seq<string>)
    requires |parts| == 3
    ensures TimestampText(parts) == parts[1] + " " + parts[2]
    ensures Text.Join(parts, " ") == parts[0] + " " + (parts[1] + " " + parts[2])
  {
    assert parts[1..3] == [parts[1]] + [parts[2]];
    JoinCons(parts[1], [parts[2]]);
    assert parts == [parts[0]] + ([parts[1]] + [parts[2]]);
    JoinCons(parts[0], [parts[1]] + [parts[2]]);
  }

  lemma WitnessTimestamp(line: string, parts: seq<string>, ts: string, strptime: TimestampParser)
    requires |parts| == 4 && parts == SplitOnSpace(line, 3)
    requires line == parts[0] + " " + ts + " " + parts[3] && TimestampText(parts) == ts
    requires Text.Count(ts, ' ') == 1 && strptime(ts).Some?
    ensures var e := ParseLogLine(line, strptime);
            exists ts :: line == e.level + " " + ts + " " + e.message &&
                         Text.Count(ts, ' ') == 1 && strptime(ts) == e.timestamp
  {
    var e := ParseLogLine(line, strptime);
    assert e.level == parts[0] && e.message == parts[3] && e.timestamp == strptime(ts);
  }

  /** The spaces of `a + " " + b` when `a` has none. */
  lemma CountAroundSpace(a: string, b: string)
    requires Text.Count(a, ' ') == 0
    ensures Text.Count(a + " " + b, ' ') == Text.Count(b, ' ') + 1
  {
    Text.CountAppend(a + " ", b, ' ');
    Text.CountAppend(a, " ", ' ');
    assert Text.Count(" ", ' ') == 1 by {
      assert " "[1..] == [];
    }
  }

  lemma FourPartsJoin(parts: seq<string>)
    requires |parts| == 4
    ensures TimestampText(parts) == parts[1] + " " + parts[2]
    ensures Text.Join(parts, " ") == parts[0] + " " + (parts[1] + " " + parts[2]) + " " + parts[3]
  {
    assert parts[1..3] == [parts[1]] + [parts[2]];
    JoinCons(parts[1], [parts[2]]);
    assert parts == [parts[0]] + ([parts[1]] + ([parts[2]] + [parts[3]]));
    JoinCons(parts[2], [parts[3]]);
    JoinCons(parts[1], [parts[2]] + [parts[3]]);
    JoinCons(parts[0], [parts[1]] + ([parts[2]] + [parts[3]]));
  }
}
