/** get_logs: the non-blank lines of the log, parsed, restricted to a
    date range, stably sorted by timestamp and cut into one page. */
module LogViewer {
  import opened Wrappers
  import Text
  import LogParse

  type LogEntry = LogParse.LogEntry

  /** The query after validation: page >= 1, 1 <= page_size <= 100, sort
      "asc" or "desc".  A date of "" (or none) applies no bound. */
  datatype Query = Query(page: int, pageSize: int, startDate: Option<string>, endDate: Option<string>, sort: string)

  datatype LogsError =
    | InvalidQuery     // rejected by the parameter validation
    | BadDate          // a date bound strptime cannot read

  datatype LogsPage =
    | NoLogFile
    | Page(total: nat, page: int, pageSize: int, logs: seq<LogEntry>)

  /** strptime with the format "%Y-%m-%d", read as a day ordinal. */
  type DateParser = string -> Option<int>

  predicate ValidQuery(q: Query) {
    q.page >= 1 && 1 <= q.pageSize <= 100 && (q.sort == "asc" || q.sort == "desc")
  }

  /** Python's `str.strip()`. */
  function Strip(line: string): string {
    Text.TrimWhere(line, Text.PythonSpace)
  }

  /** The entries of one line: none for a blank line, else the entry
      parsed from its stripped text. */
  function LineEntries(line: string, strptime: LogParse.TimestampParser): seq<LogEntry> {
    if Strip(line) == [] then [] else [LogParse.ParseLogLine(Strip(line), strptime)]
  }

  /** The entries of the non-blank lines, each parsed from its stripped
      text, in file order. */
  function ParseLines(lines: seq<string>, strptime: LogParse.TimestampParser): (logs: seq<LogEntry>)
    ensures |logs| <= |lines|
  {
    if lines == [] then [] else LineEntries(lines[0], strptime) + ParseLines(lines[1..], strptime)
  }

  /** A blank line gives no entry; any other line gives the one entry
      parsed from its stripped text. */
  lemma ParseLinesSingle(line: string, strptime: LogParse.TimestampParser)
    ensures Text.All(line, Text.PythonSpace) ==> ParseLines([line], strptime) == []
    ensures !Text.All(line, Text.PythonSpace) ==>
              ParseLines([line], strptime) == [LogParse.ParseLogLine(Strip(line), strptime)]
  {
    assert [line][1..] == [];
    assert ParseLines([line], strptime) == LineEntries(line, strptime) + [];
  }

  /** The lines are parsed one at a time: the entries of two runs of lines
      are the entries of each, in order. */
  lemma ParseLinesAppend(a: seq<string>, b: seq<string>, strptime: LogParse.TimestampParser)
    ensures ParseLines(a + b, strptime) == ParseLines(a, strptime) + ParseLines(b, strptime)
  {
    var f := EntriesOf(strptime);
    ParseLinesFlatMap(a + b, strptime);
    ParseLinesFlatMap(a, strptime);
    ParseLinesFlatMap(b, strptime);
    FlatMapAppend(a, b, f);
  }

  /** The per-line step as a function value. */
  function EntriesOf(strptime: LogParse.TimestampParser): (f: string -> seq<LogEntry>)
    ensures forall line :: f(line) == LineEntries(line, strptime)
  {
    line => LineEntries(line, strptime)
  }

  /** The entries of each line, one line after another. */
  function FlatMap(lines: seq<string>, f: string -> seq<LogEntry>): seq<LogEntry> {
    if lines == [] then [] else f(lines[0]) + FlatMap(lines[1..], f)
  }

  lemma {:induction false} FlatMapAppend(a: seq<string>, b: seq<string>, f: string -> seq<LogEntry>)
    ensures FlatMap(a + b, f) == FlatMap(a, f) + FlatMap(b, f)
  {
    if a == [] {
      assert a + b == b;
    } else {
      FlatMapAppend(a[1..], b, f);
      assert (a + b)[0] == a[0] && (a + b)[1..] == a[1..] + b;
      Associative(f(a[0]), FlatMap(a[1..], f), FlatMap(b, f));
    }
  }

  lemma {:induction false} ParseLinesFlatMap(lines: seq<string>, strptime: LogParse.TimestampParser)
    ensures ParseLines(lines, strptime) == FlatMap(lines, EntriesOf(strptime))
  {
    if lines != [] {
      ParseLinesFlatMap(lines[1..], strptime);
    }
  }

  lemma Associative(x: seq<LogEntry>, y: seq<LogEntry>, z: seq<LogEntry>)
    ensures x + (y + z) == (x + y) + z
  {
  }

  /** Every entry comes from a line that is neither blank nor padded with
      whitespace, and blank lines give no entry. */
  lemma {:induction false} ParseLinesEntries(lines: seq<string>, strptime: LogParse.TimestampParser)
    ensures forall k :: 0 <= k < |ParseLines(lines, strptime)| ==>
              ParseLines(lines, strptime)[k].raw != [] &&
              Text.Unpadded(ParseLines(lines, strptime)[k].raw, Text.PythonSpace)
    ensures (forall i :: 0 <= i < |lines| ==> Text.All(lines[i], Text.PythonSpace)) ==> ParseLines(lines, strptime) == []
  {
    if lines != [] {
      ParseLinesEntries(lines[1..], strptime);
      var rest := ParseLines(lines[1..], strptime);
      var logs := ParseLines(lines, strptime);
      var stripped := Strip(lines[0]);
      if stripped != [] {
        var first := LogParse.ParseLogLine(stripped, strptime);
        assert first.raw != [] && Text.Unpadded(first.raw, Text.PythonSpace);
        PrependEntry(first, rest);
      }
      if forall i :: 0 <= i < |lines| ==> Text.All(lines[i], Text.PythonSpace) {
        assert Text.All(lines[0], Text.PythonSpace);
        assert forall i :: 0 <= i < |lines[1..]| ==> lines[1..][i] == lines[i + 1];
      }
    }
  }

  /** The entry facts survive putting one more such entry in front. */
  lemma PrependEntry(first: LogEntry, rest: seq<LogEntry>)
    requires first.raw != [] && Text.Unpadded(first.raw, Text.PythonSpace)
    requires forall k :: 0 <= k < |rest| ==> rest[k].raw != [] && Text.Unpadded(rest[k].raw, Text.PythonSpace)
    ensures forall k :: 0 <= k < |[first] + rest| ==>
              ([first] + rest)[k].raw != [] && Text.Unpadded(([first] + rest)[k].raw, Text.PythonSpace)
  {
    var logs := [first] + rest;
    forall k | 0 <= k < |logs| ensures logs[k].raw != [] && Text.Unpadded(logs[k].raw, Text.PythonSpace) {
      if k > 0 { assert logs[k] == rest[k - 1]; }
    }
  }

  /** One of the passes over the entries. */
  datatype Bound =
    | From(lo: Option<int>)    // no start date, or stamped on or after it
    | Until(hi: Option<int>)   // no end date, or stamped on or before it
    | Stamped                  // stamped
    | Within(lo: Option<int>, hi: Option<int>)  // the three at once
    | At(moment: LogParse.DateTime)            // sort key equal to the moment

  predicate Passes(e: LogEntry, b: Bound) {
    match b
    case From(lo) => lo.None? || (e.timestamp.Some? && e.timestamp.value.day >= lo.value)
    case Until(hi) => hi.None? || (e.timestamp.Some? && e.timestamp.value.day <= hi.value)
    case Stamped => e.timestamp.Some?
    case Within(lo, hi) =>
      e.timestamp.Some? && (lo.Some? ==> e.timestamp.value.day >= lo.value) &&
      (hi.Some? ==> e.timestamp.value.day <= hi.value)
    case At(t) => Key(e) == t
  }

  /** The entries that pass, in their order. */
  function Filter(logs: seq<LogEntry>, b: Bound): (r: seq<LogEntry>)
    ensures |r| <= |logs|
  {
    if logs == [] then []
    else (if Passes(logs[0], b) then [logs[0]] else []) + Filter(logs[1..], b)
  }

  /** Filter keeps exactly the passing entries. */
  lemma {:induction false} FilterMembers(logs: seq<LogEntry>, b: Bound)
    ensures forall e :: e in Filter(logs, b) <==> e in logs && Passes(e, b)
  {
    if logs != [] {
      FilterMembers(logs[1..], b);
      assert logs == [logs[0]] + logs[1..];
    }
  }

  lemma {:induction false} FilterAppend(u: seq<LogEntry>, v: seq<LogEntry>, b: Bound)
    ensures Filter(u + v, b) == Filter(u, b) + Filter(v, b)
    decreases |u|
  {
    if u == [] {
      assert u + v == v;
    } else {
      assert (u + v)[0] == u[0] && (u + v)[1..] == u[1..] + v;
      FilterAppend(u[1..], v, b);
    }
  }

  /** The start pass, the end pass and the final timestamp pass, one after
      the other, keep exactly the stamped entries within the bounds, in
      order. */
  lemma {:induction false} PassesCombine(logs: seq<LogEntry>, lo: Option<int>, hi: Option<int>)
    ensures Filter(Filter(Filter(logs, From(lo)), Until(hi)), Stamped) == Filter(logs, Within(lo, hi))
  {
    if logs != [] {
      var x := logs[0];
      PassesCombine(logs[1..], lo, hi);
      var one := if Passes(x, From(lo)) then [x] else [];
      assert Filter(logs, From(lo)) == one + Filter(logs[1..], From(lo));
      FilterAppend(one, Filter(logs[1..], From(lo)), Until(hi));
      var two := Filter(one, Until(hi));
      FilterAppend(two, Filter(Filter(logs[1..], From(lo)), Until(hi)), Stamped);
      assert Filter([x], Within(lo, hi)) == (if Passes(x, Within(lo, hi)) then [x] else []);
      assert Filter(Filter(one, Until(hi)), Stamped) == (if Passes(x, Within(lo, hi)) then [x] else []) by {
        if Passes(x, From(lo)) {
          assert Filter([x], Until(hi)) == (if Passes(x, Until(hi)) then [x] else []);
          assert Filter([x], Stamped) == (if Passes(x, Stamped) then [x] else []);
        }
      }
    }
  }

  /** The sort key.  Only stamped entries reach the sort; an unstamped one
      would sort as the zero moment. */
  function Key(e: LogEntry): LogParse.DateTime {
    if e.timestamp.Some? then e.timestamp.value else LogParse.DateTime(0, 0)
  }

  /** `a` may come before `b` in the requested direction. */
  predicate InOrder(a: LogEntry, b: LogEntry, desc: bool) {
    if desc then LogParse.NotAfter(Key(b), Key(a)) else LogParse.NotAfter(Key(a), Key(b))
  }

  predicate Sorted(s: seq<LogEntry>, desc: bool) {
    forall i, j :: 0 <= i < j < |s| ==> InOrder(s[i], s[j], desc)
  }

  /** Place `x`, which came before every entry of `s`, ahead of the first
      entry it may precede: ahead of entries with an equal timestamp, so
      equal timestamps keep their original order in both directions, as
      Python's sort does even with reverse=True. */
  function Insert(x: LogEntry, s: seq<LogEntry>, desc: bool): (r: seq<LogEntry>)
    ensures |r| == |s| + 1
  {
    if s == [] || InOrder(x, s[0], desc) then [x] + s
    else [s[0]] + Insert(x, s[1..], desc)
  }

  /** `logs.sort(key=timestamp, reverse=desc)`. */
  function SortLogs(logs: seq<LogEntry>, desc: bool): (r: seq<LogEntry>)
    ensures |r| == |logs|
  {
    if logs == [] then [] else Insert(logs[0], SortLogs(logs[1..], desc), desc)
  }

  lemma InOrderTotal(a: LogEntry, b: LogEntry, desc: bool)
    ensures InOrder(a, b, desc) || InOrder(b, a, desc)
  {
  }

  lemma InsertKeeps(x: LogEntry, s: seq<LogEntry>, desc: bool)
    ensures multiset(Insert(x, s, desc)) == multiset(s) + multiset{x}
    ensures forall e :: e in Insert(x, s, desc) <==> e == x || e in s
  {
    if s != [] && !InOrder(x, s[0], desc) {
      InsertKeeps(x, s[1..], desc);
      assert s == [s[0]] + s[1..];
    }
  }

  lemma {:induction false} InsertSorted(x: LogEntry, s: seq<LogEntry>, desc: bool)
    requires Sorted(s, desc)
    ensures Sorted(Insert(x, s, desc), desc)
    decreases |s|
  {
    if s != [] && !InOrder(x, s[0], desc) {
      var rest := Insert(x, s[1..], desc);
      assert Sorted(s[1..], desc) by {
        forall i, j | 0 <= i < j < |s[1..]| ensures InOrder(s[1..][i], s[1..][j], desc) {
          assert s[1..][i] == s[i + 1] && s[1..][j] == s[j + 1];
        }
      }
      InsertSorted(x, s[1..], desc);
      InsertKeeps(x, s[1..], desc);
      InOrderTotal(x, s[0], desc);
      var r := [s[0]] + rest;
      forall j | 1 <= j < |r| ensures InOrder(s[0], r[j], desc) {
        assert r[j] == rest[j - 1];
        assert rest[j - 1] in rest;
        if rest[j - 1] != x {
          var k :| 0 <= k < |s[1..]| && s[1..][k] == rest[j - 1];
          assert s[k + 1] == rest[j - 1];
        }
      }
      forall i, j | 0 <= i < j < |r| ensures InOrder(r[i], r[j], desc) {
        if i > 0 { assert r[i] == rest[i - 1] && r[j] == rest[j - 1]; }
      }
    } else if s != [] {
      var r := [x] + s;
      forall i, j | 0 <= i < j < |r| ensures InOrder(r[i], r[j], desc) {
        if i == 0 {
          assert r[j] == s[j - 1];
          if j > 1 { assert InOrder(s[0], s[j - 1], desc); }
        } else {
          assert r[i] == s[i - 1] && r[j] == s[j - 1];
        }
      }
    }
  }

  /** Inserting `x` adds it to the front of the entries with its key and
      leaves the entries with any other key as they were. */
  lemma {:induction false} InsertStable(x: LogEntry, s: seq<LogEntry>, desc: bool, t: LogParse.DateTime)
    ensures Filter(Insert(x, s, desc), At(t)) == Filter([x], At(t)) + Filter(s, At(t))
    decreases |s|
  {
    if s == [] || InOrder(x, s[0], desc) {
      FilterAppend([x], s, At(t));
    } else {
      InsertStable(x, s[1..], desc, t);
      var r := Insert(x, s, desc);
      assert r == [s[0]] + Insert(x, s[1..], desc);
      FilterAppend([s[0]], Insert(x, s[1..], desc), At(t));
      assert s == [s[0]] + s[1..];
      FilterAppend([s[0]], s[1..], At(t));
      SingleFilters(x, s[0], t);
    }
  }

  /** Entries with different keys cannot both have key t. */
  lemma SingleFilters(x: LogEntry, y: LogEntry, t: LogParse.DateTime)
    requires Key(x) != Key(y)
    ensures Filter([x], At(t)) == [] || Filter([y], At(t)) == []
  {
    assert Filter([x], At(t)) == (if Key(x) == t then [x] else []);
    assert Filter([y], At(t)) == (if Key(y) == t then [y] else []);
  }

  /** The sort orders by timestamp in the requested direction, is a
      permutation, and is stable: for every timestamp, the entries with it
      come out in their original order. */
  lemma {:induction false} SortLogsCorrect(logs: seq<LogEntry>, desc: bool)
    ensures Sorted(SortLogs(logs, desc), desc)
    ensures multiset(SortLogs(logs, desc)) == multiset(logs)
    ensures forall t :: Filter(SortLogs(logs, desc), At(t)) == Filter(logs, At(t))
  {
    if logs != [] {
      var rest := SortLogs(logs[1..], desc);
      SortLogsCorrect(logs[1..], desc);
      InsertSorted(logs[0], rest, desc);
      InsertKeeps(logs[0], rest, desc);
      assert logs == [logs[0]] + logs[1..];
      forall t ensures Filter(SortLogs(logs, desc), At(t)) == Filter(logs, At(t)) {
        InsertStable(logs[0], rest, desc, t);
        FilterAppend([logs[0]], logs[1..], At(t));
      }
    }
  }

  /** `logs[(page - 1) * page_size : (page - 1) * page_size + page_size]`,
      with Python's clamping of a slice that runs past the end. */
  function Window(logs: seq<LogEntry>, page: int, pageSize: int): (r: seq<LogEntry>)
    requires page >= 1 && pageSize >= 1
    ensures |r| <= pageSize
    ensures var start := (page - 1) * pageSize;
            forall i :: 0 <= i < |r| ==> start + i < |logs| && r[i] == logs[start + i]
    ensures var start := (page - 1) * pageSize;
            |r| == (if start >= |logs| then 0 else if |logs| - start < pageSize then |logs| - start else pageSize)
  {
    var start := (page - 1) * pageSize;
    var end := start + pageSize;
    if start >= |logs| then [] else logs[start..if end < |logs| then end else |logs|]
  }

  function Min(a: int, b: int): int { if a <= b then a else b }

  /** Pages 1 to n, one after the other. */
  function Pages(logs: seq<LogEntry>, n: nat, pageSize: int): seq<LogEntry>
    requires pageSize >= 1
  {
    if n == 0 then [] else Pages(logs, n - 1, pageSize) + Window(logs, n, pageSize)
  }

  /** The pages tile the sorted list: pages 1 to n, read in order, are
      exactly its first n * page_size entries. */
  lemma {:induction false} PagesTile(logs: seq<LogEntry>, n: nat, pageSize: int)
    requires pageSize >= 1
    ensures Pages(logs, n, pageSize) == logs[..Min(n * pageSize, |logs|)]
  {
    if n > 0 {
      PagesTile(logs, n - 1, pageSize);
      var a := Min((n - 1) * pageSize, |logs|);
      var b := Min(n * pageSize, |logs|);
      assert n * pageSize == (n - 1) * pageSize + pageSize;
      assert logs[..b] == logs[..a] + logs[a..b];
    }
  }

  /** A date parameter: none or "" gives no bound; otherwise it must parse. */
  function DateBound(date: Option<string>, parseDay: DateParser): (r: Result<Option<int>, LogsError>)
    ensures r.Failure? <==> date.Some? && date.value != [] && parseDay(date.value).None?
    ensures r.Success? && r.value.Some? ==> date.Some? && parseDay(date.value) == r.value
    ensures r == Success(None) <==> date.None? || date.value == []
  {
    if date.None? || date.value == [] then Success(None)
    else match parseDay(date.value)
      case None => Failure(BadDate)
      case Some(day) => Success(Some(day))
  }

  /** get_logs on the lines of the log file (None when there is no file). */
  function GetLogs(file: Option<seq<string>>, q: Query, strptime: LogParse.TimestampParser,
                   parseDay: DateParser): (r: Result<LogsPage, LogsError>)
    ensures r == Failure(InvalidQuery) <==> !ValidQuery(q)
    ensures r == Success(NoLogFile) <==> ValidQuery(q) && file.None?
    ensures r == Failure(BadDate) <==>
              ValidQuery(q) && file.Some? &&
              (DateBound(q.startDate, parseDay).Failure? || DateBound(q.endDate, parseDay).Failure?)
    ensures r.Success? && r.value.Page? ==>
              var all := ParseLines(file.value, strptime);
              var kept := Filter(all, Within(DateBound(q.startDate, parseDay).value, DateBound(q.endDate, parseDay).value));
              r.value.total == |kept| && r.value.page == q.page && r.value.pageSize == q.pageSize &&
              |r.value.logs| <= q.pageSize && Sorted(r.value.logs, q.sort == "desc") &&
              (forall e :: e in r.value.logs ==> e in kept) &&
              r.value.logs == Window(SortLogs(kept, q.sort == "desc"), q.page, q.pageSize)
  {
    if !ValidQuery(q) then Failure(InvalidQuery)
    else if file.None? then Success(NoLogFile)
    else
      var logs := ParseLines(file.value, strptime);
      match DateBound(q.startDate, parseDay)
      case Failure(e) => Failure(e)
      case Success(lo) =>
        match DateBound(q.endDate, parseDay)
        case Failure(e) => Failure(e)
        case Success(hi) => Success(PageOf(logs, lo, hi, q))
  }

  /** The filter, sort and page steps on the parsed entries. */
  function PageOf(logs: seq<LogEntry>, lo: Option<int>, hi: Option<int>, q: Query): (r: LogsPage)
    requires ValidQuery(q)
    ensures var kept := Filter(logs, Within(lo, hi));
            r.Page? && r.total == |kept| && r.page == q.page && r.pageSize == q.pageSize &&
            |r.logs| <= q.pageSize && Sorted(r.logs, q.sort == "desc") &&
            (forall e :: e in r.logs ==> e in kept)
    ensures r.logs == Window(SortLogs(Filter(logs, Within(lo, hi)), q.sort == "desc"), q.page, q.pageSize)
  {
    var kept := Filter(Filter(Filter(logs, From(lo)), Until(hi)), Stamped);
    PassesCombine(logs, lo, hi);
    var sorted := SortLogs(kept, q.sort == "desc");
    SortLogsCorrect(kept, q.sort == "desc");
    assert forall e :: e in sorted ==> e in kept by {
      forall e | e in sorted ensures e in kept {
        assert e in multiset(sorted);
      }
    }
    var page := Window(sorted, q.page, q.pageSize);
    WindowFacts(sorted, q.page, q.pageSize, q.sort == "desc");
    Page(|sorted|, q.page, q.pageSize, page)
  }

  /** A page of a sorted list is sorted and holds only its entries. */
  lemma WindowFacts(logs: seq<LogEntry>, page: int, pageSize: int, desc: bool)
    requires page >= 1 && pageSize >= 1 && Sorted(logs, desc)
    ensures Sorted(Window(logs, page, pageSize), desc)
    ensures forall e :: e in Window(logs, page, pageSize) ==> e in logs
  {
    var r := Window(logs, page, pageSize);
    var start := (page - 1) * pageSize;
    forall i, j | 0 <= i < j < |r| ensures InOrder(r[i], r[j], desc) {
      assert r[i] == logs[start + i] && r[j] == logs[start + j];
    }
    forall e | e in r ensures e in logs {
      var i :| 0 <= i < |r| && r[i] == e;
      assert logs[start + i] == e;
    }
  }
}
