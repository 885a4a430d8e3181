/**
 * `parse_top` of linux_sys_stats.py: one pass over the lines of
 * `top -b -n 1`, dispatching on the line's prefix, picking readings out of
 * the line's tokens by position, and building a process table from the
 * `PID` header row.  Float readings are kept as their text.  A raised
 * exception (`IndexError`, `ValueError`, or the `NameError` of a process
 * row before any header) ends the parse: None.
 */
module LinuxSysStats {
  import opened Common
  import opened PyText
  import opened ProcessTable

  /** Lines of these prefixes are read as summary lines, never as process rows. */
  predicate Prefixed(line: string)
  {
    StartsWith(line, "top - ") || StartsWith(line, "Tasks:") || StartsWith(line, "%Cpu(s):") ||
    StartsWith(line, "MiB Mem") || StartsWith(line, "MiB Swap:")
  }

  function LoadAvg(t: seq<string>): Entry
    requires |t| == 3
  {
    Group(map["one" := Str(Chop(t[0])), "five" := Str(Chop(t[1])), "fifteen" := Str(t[2])])
  }

  function ProcessCounts(v: seq<int>): Entry
    requires |v| == 5
  {
    Group(map["total" := Num(v[0]), "running" := Num(v[1]), "sleeping" := Num(v[2]),
              "stopped" := Num(v[3]), "zombie" := Num(v[4])])
  }

  function Cpu(t: seq<string>): Entry
    requires |t| == 8
  {
    Group(map["user" := Str(t[0]), "sys" := Str(t[1]), "idle" := Str(t[3]), "nice" := Str(t[2]),
              "wait" := Str(t[4]), "hardware_int" := Str(t[5]), "software_int" := Str(t[6]),
              "hypervisor" := Str(t[7])])
  }

  function Memory(t: seq<string>): Entry
    requires |t| == 4
  {
    Group(map["used" := Str(t[2]), "free" := Str(t[1]), "total" := Str(t[0]), "cache" := Str(t[3])])
  }

  function Swap(t: seq<string>): Entry
    requires |t| == 4
  {
    Group(map["total" := Str(t[0]), "free" := Str(t[1]), "used" := Str(t[2]), "available" := Str(t[3])])
  }

  /** One iteration of the loop: the first branch whose test the line passes, in the order of the source. */
  function Line(s: Scan, line: string): Option<Scan>
  {
    if line == [] then Some(s)
    else
      var f := Split(line);
      if StartsWith(line, "top - ") then
        (match TextsAt(f, [12, 13, 14]) case None => None case Some(t) => Some(Put(s, "load_avg", LoadAvg(t))))
      else if StartsWith(line, "Tasks:") then
        (match IntsAt(f, [1, 3, 5, 7, 9]) case None => None case Some(v) => Some(Put(s, "process_counts", ProcessCounts(v))))
      else if StartsWith(line, "%Cpu(s):") then
        (match TextsAt(f, [1, 3, 5, 7, 9, 11, 13, 15]) case None => None case Some(t) => Some(Put(s, "cpu", Cpu(t))))
      else if StartsWith(line, "MiB Mem") then
        (match TextsAt(f, [3, 5, 7, 9]) case None => None case Some(t) => Some(Put(s, "memory", Memory(t))))
      else if StartsWith(line, "MiB Swap:") then
        (match TextsAt(f, [2, 4, 6, 8]) case None => None case Some(t) => Some(Put(s, "vm", Swap(t))))
      else if f == [] then None
      else if f[0] == "PID" then Some(s.(columns := Some(f)))
      else AppendRow(s, f)
  }

  /** The loop state after the given lines, or None once one of them raised. */
  function Scanned(top: seq<string>, hostname: string): Option<Scan>
    decreases |top|
  {
    if top == [] then Some(Scan(InitialReport(hostname), None))
    else match Scanned(top[..|top| - 1], hostname)
      case None => None
      case Some(s) => Line(s, top[|top| - 1])
  }

  /** What `parse_top` returns, or None when it raises. */
  function ParsedTop(top: seq<string>, hostname: string): Option<Report>
  {
    match Scanned(top, hostname)
    case None => None
    case Some(s) => Some(s.report)
  }

  /** The loop of `parse_top`. */
  method ParseTop(top: seq<string>, hostname: string) returns (r: Option<Report>)
    ensures r == ParsedTop(top, hostname)
  {
    var report := InitialReport(hostname);
    var bound := false;
    var outFields := Header(map[], []);
    ghost var columns: Option<seq<string>> := None;
    var i := 0;
    while i < |top|
      invariant i <= |top|
      invariant Scanned(top[..i], hostname) == Some(Scan(report, columns))
      invariant bound <==> columns.Some?
      invariant bound ==> outFields == HeaderOf(columns.value)
    {
      assert top[..i + 1][..i] == top[..i];
      var ok;
      ok, report, bound, outFields, columns := AbsorbLine(report, bound, outFields, columns, top[i]);
      if !ok {
        ScannedStops(top, hostname, i + 1);
        return None;
      }
      i := i + 1;
    }
    assert top[..i] == top;
    r := Some(report);
  }

  /** The body of the loop of `parse_top`, on one line. */
  method AbsorbLine(report: Report, bound: bool, outFields: Header, ghost columns: Option<seq<string>>, line: string)
    returns (ok: bool, report2: Report, bound2: bool, outFields2: Header, ghost columns2: Option<seq<string>>)
    requires bound <==> columns.Some?
    requires bound ==> outFields == HeaderOf(columns.value)
    ensures ok <==> Line(Scan(report, columns), line).Some?
    ensures ok ==> Line(Scan(report, columns), line) == Some(Scan(report2, columns2))
    ensures bound2 <==> columns2.Some?
    ensures bound2 ==> outFields2 == HeaderOf(columns2.value)
  {
    ok, report2, bound2, outFields2, columns2 := true, report, bound, outFields, columns;
    if line == [] {
      return;
    }
    var fields := Split(line);
    if StartsWith(line, "top - ") {
      var t := TextsAt(fields, [12, 13, 14]);
      if t.None? { ok := false; return; }
      report2 := report["load_avg" := LoadAvg(t.value)];
    } else if StartsWith(line, "Tasks:") {
      var v := IntsAt(fields, [1, 3, 5, 7, 9]);
      if v.None? { ok := false; return; }
      report2 := report["process_counts" := ProcessCounts(v.value)];
    } else if StartsWith(line, "%Cpu(s):") {
      var t := TextsAt(fields, [1, 3, 5, 7, 9, 11, 13, 15]);
      if t.None? { ok := false; return; }
      report2 := report["cpu" := Cpu(t.value)];
    } else if StartsWith(line, "MiB Mem") {
      var t := TextsAt(fields, [3, 5, 7, 9]);
      if t.None? { ok := false; return; }
      report2 := report["memory" := Memory(t.value)];
    } else if StartsWith(line, "MiB Swap:") {
      var t := TextsAt(fields, [2, 4, 6, 8]);
      if t.None? { ok := false; return; }
      report2 := report["vm" := Swap(t.value)];
    } else if fields == [] {
      ok := false;
    } else if fields[0] == "PID" {
      outFields2 := BuildHeader(fields);
      bound2 := true;
      columns2 := Some(fields);
    } else if !bound {
      ok := false;
    } else {
      var pdict := BuildRow(outFields, fields);
      if pdict.None? { ok := false; return; }
      report2 := AddProcess(report, pdict.value);
    }
  }

  /** Once a line has raised, the whole parse has. */
  lemma {:induction false} ScannedStops(top: seq<string>, hostname: string, k: nat)
    requires k <= |top| && Scanned(top[..k], hostname) == None
    ensures Scanned(top, hostname) == None
    decreases |top| - k
  {
    if k < |top| {
      assert top[..k + 1][..k] == top[..k];
      ScannedStops(top, hostname, k + 1);
    } else {
      assert top[..k] == top;
    }
  }

  // ---------------------------------------------------------------------------
  // Properties
  // ---------------------------------------------------------------------------

  /** A summary line writes only its own group, never `"hostname"`. */
  lemma SummaryKeepsHostname(s: Scan, line: string)
    requires Prefixed(line) && Line(s, line).Some?
    ensures Line(s, line).value.report == s.report[SummaryKey(line) := Line(s, line).value.report[SummaryKey(line)]]
  {
  }

  /** The group a summary line writes. */
  function SummaryKey(line: string): (key: string)
    ensures key != "hostname" && key != "processes"
  {
    if StartsWith(line, "top - ") then "load_avg"
    else if StartsWith(line, "Tasks:") then "process_counts"
    else if StartsWith(line, "%Cpu(s):") then "cpu"
    else if StartsWith(line, "MiB Mem") then "memory"
    else "vm"
  }

  /** No branch writes `"hostname"`. */
  lemma LineKeepsHostname(s: Scan, line: string)
    requires "hostname" in s.report && Line(s, line).Some?
    ensures "hostname" in Line(s, line).value.report
    ensures Line(s, line).value.report["hostname"] == s.report["hostname"]
  {
    if Prefixed(line) {
      SummaryKeepsHostname(s, line);
    } else if line != [] && Split(line)[0] != "PID" {
      assert Line(s, line) == AppendRow(s, Split(line));
    }
  }

  /** The result always holds the host name it started with. */
  lemma {:induction false} HostnameKept(top: seq<string>, hostname: string)
    requires ParsedTop(top, hostname).Some?
    ensures "hostname" in ParsedTop(top, hostname).value
    ensures ParsedTop(top, hostname).value["hostname"] == Host(hostname)
    decreases |top|
  {
    if top != [] {
      var front := top[..|top| - 1];
      HostnameKept(front, hostname);
      LineKeepsHostname(Scanned(front, hostname).value, top[|top| - 1]);
    }
  }

  /** The lines without the empty ones. */
  function NonBlank(top: seq<string>): (r: seq<string>)
    ensures forall k :: 0 <= k < |r| ==> r[k] != []
    decreases |top|
  {
    if top == [] then []
    else NonBlank(top[..|top| - 1]) + (if top[|top| - 1] == [] then [] else [top[|top| - 1]])
  }

  /** Empty lines are skipped: dropping them changes nothing. */
  lemma {:induction false} BlankLinesSkipped(top: seq<string>, hostname: string)
    ensures Scanned(top, hostname) == Scanned(NonBlank(top), hostname)
    ensures ParsedTop(top, hostname) == ParsedTop(NonBlank(top), hostname)
    decreases |top|
  {
    if top != [] {
      var front := top[..|top| - 1];
      var last := top[|top| - 1];
      BlankLinesSkipped(front, hostname);
      var nb := NonBlank(top);
      if last == [] {
        assert nb == NonBlank(front);
        assert Scanned(top, hostname) == Scanned(front, hostname) by {
          if Scanned(front, hostname).Some? {
            var s := Scanned(front, hostname).value;
            assert Line(s, last) == Some(s);
          }
        }
      } else {
        assert nb == NonBlank(front) + [last];
        assert nb[..|nb| - 1] == NonBlank(front) && nb[|nb| - 1] == last;
      }
    }
  }

  /** `"%d"` text is a token of `str.split()`. */
  lemma FormatIntIsToken(i: int)
    ensures IsToken(FormatInt(i))
  {
    var n: nat := if i < 0 then -i else i;
    assert AllDigits(Decimal(n));
  }

  /** The text of a line starts with its first token. */
  lemma JoinWordsStartsWith(ts: seq<string>)
    requires |ts| >= 1
    ensures StartsWith(JoinWords(ts), ts[0])
  {
    if |ts| > 1 {
      assert JoinWords(ts)[..|ts[0]|] == ts[0];
    }
  }

  /**
   * A `Tasks:` line whose tokens 1, 3, 5, 7 and 9 are the decimal texts of
   * five counts records exactly those counts under `process_counts`, and
   * changes nothing else.
   */
  lemma TasksLine(s: Scan, ts: seq<string>, total: int, running: int, sleeping: int, stopped: int, zombie: int)
    requires |ts| >= 10 && ts[0] == "Tasks:" && forall k :: 0 <= k < |ts| ==> IsToken(ts[k])
    requires ts[1] == FormatInt(total) && ts[3] == FormatInt(running) && ts[5] == FormatInt(sleeping)
    requires ts[7] == FormatInt(stopped) && ts[9] == FormatInt(zombie)
    ensures Line(s, JoinWords(ts)) ==
      Some(s.(report := s.report["process_counts" := Group(map["total" := Num(total), "running" := Num(running),
        "sleeping" := Num(sleeping), "stopped" := Num(stopped), "zombie" := Num(zombie)])]))
  {
    var line := JoinWords(ts);
    TasksTokens(ts);
    TasksCounts(ts, total, running, sleeping, stopped, zombie);
    var counts := [total, running, sleeping, stopped, zombie];
    TasksBranch(s, line, counts);
    assert ProcessCounts(counts) == Group(map["total" := Num(total), "running" := Num(running),
      "sleeping" := Num(sleeping), "stopped" := Num(stopped), "zombie" := Num(zombie)]);
  }

  /** The `Tasks:` branch of the loop, when the counts are read. */
  lemma TasksBranch(s: Scan, line: string, v: seq<int>)
    requires StartsWith(line, "Tasks:") && !StartsWith(line, "top - ")
    requires IntsAt(Split(line), [1, 3, 5, 7, 9]) == Some(v)
    ensures Line(s, line) == Some(Put(s, "process_counts", ProcessCounts(v)))
  {
  }

  lemma TasksTokens(ts: seq<string>)
    requires |ts| >= 1 && ts[0] == "Tasks:" && forall k :: 0 <= k < |ts| ==> IsToken(ts[k])
    ensures Split(JoinWords(ts)) == ts
    ensures StartsWith(JoinWords(ts), "Tasks:") && !StartsWith(JoinWords(ts), "top - ")
  {
    SplitJoinWords(ts);
    JoinWordsStartsWith(ts);
    assert JoinWords(ts)[0] == 'T';
  }

  /** Tokens that are the `"%d"` texts of some integers are read back by `int()` as those integers. */
  lemma IntsOfDecimals(f: seq<string>, at: seq<nat>, vals: seq<int>)
    requires |at| == |vals| && forall j :: 0 <= j < |at| ==> at[j] < |f| && f[at[j]] == FormatInt(vals[j])
    ensures IntsAt(f, at) == Some(vals)
  {
    forall j | 0 <= j < |at|
      ensures Int(f[at[j]]) == Some(vals[j])
    {
      BothConventionsKeepNumerals();
      FormatIntRoundTrip(vals[j], IsSpace);
    }
    assert IntsAt(f, at).value == vals;
  }

  lemma TasksCounts(ts: seq<string>, total: int, running: int, sleeping: int, stopped: int, zombie: int)
    requires |ts| >= 10
    requires ts[1] == FormatInt(total) && ts[3] == FormatInt(running) && ts[5] == FormatInt(sleeping)
    requires ts[7] == FormatInt(stopped) && ts[9] == FormatInt(zombie)
    ensures IntsAt(ts, [1, 3, 5, 7, 9]) == Some([total, running, sleeping, stopped, zombie])
  {
    var at: seq<nat> := [1, 3, 5, 7, 9];
    var counts := [total, running, sleeping, stopped, zombie];
    forall j | 0 <= j < |at|
      ensures at[j] < |ts| && ts[at[j]] == FormatInt(counts[j])
    {
      if j == 0 {} else if j == 1 {} else if j == 2 {} else if j == 3 {} else {}
    }
    IntsOfDecimals(ts, at, counts);
  }

  /**
   * A `top - ` line records its tokens 12 and 13 without their trailing
   * comma and its token 14 as the one, five and fifteen minute load
   * averages; a line of fewer than 15 tokens raises.
   */
  lemma LoadAvgLine(s: Scan, ts: seq<string>)
    requires |ts| >= 3 && ts[0] == "top" && ts[1] == "-" && forall k :: 0 <= k < |ts| ==> IsToken(ts[k])
    ensures |ts| < 15 ==> Line(s, JoinWords(ts)) == None
    ensures |ts| >= 15 ==>
      (Line(s, JoinWords(ts)) ==
       Some(s.(report := s.report["load_avg" := Group(map["one" := Str(Chop(ts[12])), "five" := Str(Chop(ts[13])),
         "fifteen" := Str(ts[14])])])))
  {
    TopTokens(ts);
    LoadTexts(ts);
  }

  lemma LoadTexts(ts: seq<string>)
    ensures |ts| < 15 ==> TextsAt(ts, [12, 13, 14]) == None
    ensures |ts| >= 15 ==> TextsAt(ts, [12, 13, 14]) == Some([ts[12], ts[13], ts[14]])
  {
    var at: seq<nat> := [12, 13, 14];
    if |ts| < 15 {
      assert at[2] >= |ts|;
    } else {
      assert TextsAt(ts, at).value == [ts[12], ts[13], ts[14]];
    }
  }

  lemma TopTokens(ts: seq<string>)
    requires |ts| >= 3 && ts[0] == "top" && ts[1] == "-" && forall k :: 0 <= k < |ts| ==> IsToken(ts[k])
    ensures Split(JoinWords(ts)) == ts && StartsWith(JoinWords(ts), "top - ")
  {
    SplitJoinWords(ts);
    TopPrefix(ts);
  }

  lemma TopPrefix(ts: seq<string>)
    requires |ts| >= 3 && ts[0] == "top" && ts[1] == "-"
    ensures StartsWith(JoinWords(ts), "top - ")
  {
    var rest := JoinWords(ts[2..]);
    assert JoinWords(ts[1..]) == "-" + " " + rest by {
      assert ts[1..][0] == "-" && ts[1..][1..] == ts[2..];
    }
    var line := JoinWords(ts);
    assert line == "top" + " " + ("-" + " " + rest);
    assert line[0] == 't' && line[1] == 'o' && line[2] == 'p' && line[3] == ' ' && line[4] == '-' && line[5] == ' ';
    assert line[..6] == "top - ";
  }

  /** A line whose first token is `PID` (and that has no summary prefix) sets the column map to its tokens and changes nothing else. */
  lemma PidLine(s: Scan, line: string)
    requires !Prefixed(line) && |Split(line)| >= 1 && Split(line)[0] == "PID"
    ensures Line(s, line) == Some(s.(columns := Some(Split(line))))
  {
  }

  /** Every other non-blank line is a process row (see `ProcessTable.AppendRowOfHeader`). */
  lemma ProcessLine(s: Scan, line: string)
    requires !Prefixed(line) && |Split(line)| >= 1 && Split(line)[0] != "PID"
    ensures Line(s, line) == AppendRow(s, Split(line))
  {
  }

  /** A line with a summary prefix never touches the process table or the column map. */
  lemma SummaryLinesKeepProcesses(s: Scan, line: string)
    requires Prefixed(line) && Line(s, line).Some?
    ensures Line(s, line).value.columns == s.columns
    ensures ProcessRows(Line(s, line).value.report) == ProcessRows(s.report)
  {
    SummaryKeepsHostname(s, line);
    var key := SummaryKey(line);
    PutKeepsProcesses(s, key, Line(s, line).value.report[key]);
  }
}
