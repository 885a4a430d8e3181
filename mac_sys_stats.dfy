/**
 * `parse_top` of mac_sys_stats.py: one pass over the lines of `top -l 1`,
 * skipping blank lines and the time-stamp line (it starts with the current
 * year and a slash), dispatching on the line's prefix, picking readings out
 * of the tokens by position, and building a process table from the `PID`
 * header row.  The clock is the `year` parameter; float readings are kept
 * as their text.  A raised exception ends the parse: None.
 */
module MacSysStats {
  import opened Common
  import opened PyText
  import opened ProcessTable

  /** `f"{year}/"`. */
  function YearPrefix(year: int): string
  {
    FormatInt(year) + "/"
  }

  /** Lines the loop passes over with `continue`. */
  predicate Skipped(line: string, year: int)
  {
    line == [] || StartsWith(line, YearPrefix(year))
  }

  /** Lines of these prefixes are read as summary lines, never as process rows. */
  predicate Prefixed(line: string)
  {
    StartsWith(line, "Processes") || StartsWith(line, "Load Avg") || StartsWith(line, "CPU usage") ||
    StartsWith(line, "SharedLibs") || StartsWith(line, "MemRegions") || StartsWith(line, "PhysMem") ||
    StartsWith(line, "VM") || StartsWith(line, "Networks") || StartsWith(line, "Disks")
  }

  /** `tok.split("(")[0]`: the token up to its first opening parenthesis. */
  function BeforeParen(tok: string): string
  {
    SplitOn(tok, '(')[0]
  }

  /** A `count/amount` token split on `/`: `int()` of the part before the first slash, and the text after it up to the next; None when either raises. */
  function Transfer(tok: string): Option<(int, string)>
  {
    var parts := SplitOn(tok, '/');
    match Int(parts[0])
    case None => None
    case Some(n) => if |parts| >= 2 then Some((n, parts[1])) else None
  }

  function ProcessCounts(v: seq<int>): Entry
    requires |v| == 4
  {
    Group(map["total" := Num(v[0]), "running" := Num(v[1]), "sleeping" := Num(v[2]), "threads" := Num(v[3])])
  }

  function LoadAvg(t: seq<string>): Entry
    requires |t| == 3
  {
    Group(map["one" := Str(Chop(t[0])), "five" := Str(Chop(t[1])), "fifteen" := Str(t[2])])
  }

  function Cpu(t: seq<string>): Entry
    requires |t| == 3
  {
    Group(map["user" := Str(Chop(t[0])), "sys" := Str(Chop(t[1])), "idle" := Str(Chop(t[2]))])
  }

  function Libs(t: seq<string>): Entry
    requires |t| == 3
  {
    Group(map["resident" := Str(t[0]), "data" := Str(t[1]), "linked" := Str(t[2])])
  }

  function Regions(total: int, t: seq<string>): Entry
    requires |t| == 4
  {
    Group(map["total" := Num(total), "resident" := Str(t[1]), "private" := Str(t[2]), "shared" := Str(t[3])])
  }

  function Memory(t: seq<string>): Entry
    requires |t| == 4
  {
    Group(map["used" := Str(t[0]), "wired" := Str(t[1]), "compressed" := Str(t[2]), "unused" := Str(t[3])])
  }

  function Vm(t: seq<string>): Entry
    requires |t| == 4
  {
    Group(map["vsize" := Str(t[0]), "framework_vsize" := Str(t[1]),
              "swapin" := Str(BeforeParen(t[2])), "swapout" := Str(BeforeParen(t[3]))])
  }

  function Network(i: (int, string), o: (int, string)): Entry
  {
    Group(map["packets_in" := Num(i.0), "data_in" := Str(i.1), "packets_out" := Num(o.0), "data_out" := Str(o.1)])
  }

  function Disks(r: (int, string), w: (int, string)): Entry
  {
    Group(map["sectors_read" := Num(r.0), "data_read" := Str(r.1), "sectors_written" := Num(w.0),
              "data_written" := Str(w.1)])
  }

  /** The `Networks` and `Disks` branches: two transfer tokens, or None. */
  function Transfers(f: seq<string>, at: seq<nat>): Option<((int, string), (int, string))>
    requires |at| == 2
  {
    match TextsAt(f, at)
    case None => None
    case Some(t) =>
      match (Transfer(t[0]), Transfer(t[1]))
      case (Some(i), Some(o)) => Some((i, o))
      case _ => None
  }

  /** The group a summary line writes: the first prefix it starts with, in the order of the source. */
  function SummaryKey(line: string): (key: string)
    ensures key != "hostname" && key != "processes"
  {
    if StartsWith(line, "Processes") then "process_counts"
    else if StartsWith(line, "Load Avg") then "load_avg"
    else if StartsWith(line, "CPU usage") then "cpu"
    else if StartsWith(line, "SharedLibs") then "libs"
    else if StartsWith(line, "MemRegions") then "regions"
    else if StartsWith(line, "PhysMem") then "memory"
    else if StartsWith(line, "VM") then "vm"
    else if StartsWith(line, "Networks") then "network"
    else "disk_usage"
  }

  /** The readings of a summary line with tokens `f`, or None when picking them raises. */
  function Summary(line: string, f: seq<string>): Option<Entry>
  {
    if StartsWith(line, "Processes") then
      (match IntsAt(f, [1, 3, 5, 7]) case None => None case Some(v) => Some(ProcessCounts(v)))
    else if StartsWith(line, "Load Avg") then
      (match TextsAt(f, [2, 3, 4]) case None => None case Some(t) => Some(LoadAvg(t)))
    else if StartsWith(line, "CPU usage") then
      (match TextsAt(f, [2, 4, 6]) case None => None case Some(t) => Some(Cpu(t)))
    else if StartsWith(line, "SharedLibs") then
      (match TextsAt(f, [1, 3, 5]) case None => None case Some(t) => Some(Libs(t)))
    else if StartsWith(line, "MemRegions") then
      (match TextsAt(f, [1, 3, 5, 7])
       case None => None
       case Some(t) => match Int(t[0]) case None => None case Some(n) => Some(Regions(n, t)))
    else if StartsWith(line, "PhysMem") then
      (match TextsAt(f, [1, 3, 5, 7]) case None => None case Some(t) => Some(Memory(t)))
    else if StartsWith(line, "VM") then
      (match TextsAt(f, [1, 3, 6, 8]) case None => None case Some(t) => Some(Vm(t)))
    else if StartsWith(line, "Networks") then
      (match Transfers(f, [2, 4]) case None => None case Some(p) => Some(Network(p.0, p.1)))
    else
      (match Transfers(f, [1, 3]) case None => None case Some(p) => Some(Disks(p.0, p.1)))
  }

  /**
   * One iteration of the loop: a skipped line changes nothing; a line with a
   * summary prefix writes the group of the first prefix it starts with; a
   * `PID` line sets the column map; any other line is a process row.
   */
  function Line(s: Scan, year: int, line: string): Option<Scan>
  {
    if Skipped(line, year) then Some(s)
    else
      var f := Split(line);
      if Prefixed(line) then
        (match Summary(line, f) case None => None case Some(e) => Some(Put(s, SummaryKey(line), e)))
      else if StartsWith(line, "PID") then Some(s.(columns := Some(f)))
      else AppendRow(s, f)
  }

  /** The loop state after the given lines, or None once one of them raised. */
  function Scanned(top: seq<string>, year: int, hostname: string): Option<Scan>
    decreases |top|
  {
    if top == [] then Some(Scan(InitialReport(hostname), None))
    else match Scanned(top[..|top| - 1], year, hostname)
      case None => None
      case Some(s) => Line(s, year, top[|top| - 1])
  }

  /** What `parse_top` returns in the given year, or None when it raises. */
  function ParsedTop(top: seq<string>, year: int, hostname: string): Option<Report>
  {
    match Scanned(top, year, hostname)
    case None => None
    case Some(s) => Some(s.report)
  }

  /** The loop of `parse_top`. */
  method ParseTop(top: seq<string>, year: int, hostname: string) returns (r: Option<Report>)
    ensures r == ParsedTop(top, year, hostname)
  {
    var report := InitialReport(hostname);
    var bound := false;
    var outFields := Header(map[], []);
    ghost var columns: Option<seq<string>> := None;
    var i := 0;
    while i < |top|
      invariant i <= |top|
      invariant Scanned(top[..i], year, hostname) == Some(Scan(report, columns))
      invariant bound <==> columns.Some?
      invariant bound ==> outFields == HeaderOf(columns.value)
    {
      assert top[..i + 1][..i] == top[..i];
      var ok;
      ok, report, bound, outFields, columns := AbsorbLine(report, bound, outFields, columns, year, top[i]);
      if !ok {
        ScannedStops(top, year, hostname, i + 1);
        return None;
      }
      i := i + 1;
    }
    assert top[..i] == top;
    r := Some(report);
  }

  /** The body of the loop of `parse_top`, on one line. */
  method AbsorbLine(report: Report, bound: bool, outFields: Header, ghost columns: Option<seq<string>>, year: int, line: string)
    returns (ok: bool, report2: Report, bound2: bool, outFields2: Header, ghost columns2: Option<seq<string>>)
    requires bound <==> columns.Some?
    requires bound ==> outFields == HeaderOf(columns.value)
    ensures ok <==> Line(Scan(report, columns), year, line).Some?
    ensures ok ==> Line(Scan(report, columns), year, line) == Some(Scan(report2, columns2))
    ensures bound2 <==> columns2.Some?
    ensures bound2 ==> outFields2 == HeaderOf(columns2.value)
  {
    ok, report2, bound2, outFields2, columns2 := true, report, bound, outFields, columns;
    if line == [] || StartsWith(line, YearPrefix(year)) {
      return;
    }
    var fields := Split(line);
    if StartsWith(line, "Processes") {
      var v := IntsAt(fields, [1, 3, 5, 7]);
      if v.None? { ok := false; return; }
      report2 := report["process_counts" := ProcessCounts(v.value)];
    } else if StartsWith(line, "Load Avg") {
      var t := TextsAt(fields, [2, 3, 4]);
      if t.None? { ok := false; return; }
      report2 := report["load_avg" := LoadAvg(t.value)];
    } else if StartsWith(line, "CPU usage") {
      var t := TextsAt(fields, [2, 4, 6]);
      if t.None? { ok := false; return; }
      report2 := report["cpu" := Cpu(t.value)];
    } else if StartsWith(line, "SharedLibs") {
      var t := TextsAt(fields, [1, 3, 5]);
      if t.None? { ok := false; return; }
      report2 := report["libs" := Libs(t.value)];
    } else if StartsWith(line, "MemRegions") {
      var t := TextsAt(fields, [1, 3, 5, 7]);
      if t.None? { ok := false; return; }
      var total := Int(t.value[0]);
      if total.None? { ok := false; return; }
      report2 := report["regions" := Regions(total.value, t.value)];
    } else if StartsWith(line, "PhysMem") {
      var t := TextsAt(fields, [1, 3, 5, 7]);
      if t.None? { ok := false; return; }
      report2 := report["memory" := Memory(t.value)];
    } else if StartsWith(line, "VM") {
      var t := TextsAt(fields, [1, 3, 6, 8]);
      if t.None? { ok := false; return; }
      report2 := report["vm" := Vm(t.value)];
    } else if StartsWith(line, "Networks") {
      var p := Transfers(fields, [2, 4]);
      if p.None? { ok := false; return; }
      report2 := report["network" := Network(p.value.0, p.value.1)];
    } else if StartsWith(line, "Disks") {
      var p := Transfers(fields, [1, 3]);
      if p.None? { ok := false; return; }
      report2 := report["disk_usage" := Disks(p.value.0, p.value.1)];
    } else if StartsWith(line, "PID") {
      outFields2 := BuildHeader(fields);
      bound2 := true;
      columns2 := Some(fields);
    } else if !bound {
      ok := false;
    } else {
      var pdict := BuildRow(outFields, fields);
      if pdict.None? { ok := false; return; }
      report2 := AddProcess(report, pdict.value);
    }
  }

  /** Once a line has raised, the whole parse has. */
  lemma {:induction false} ScannedStops(top: seq<string>, year: int, hostname: string, k: nat)
    requires k <= |top| && Scanned(top[..k], year, hostname) == None
    ensures Scanned(top, year, hostname) == None
    decreases |top| - k
  {
    if k < |top| {
      assert top[..k + 1][..k] == top[..k];
      ScannedStops(top, year, hostname, k + 1);
    } else {
      assert top[..k] == top;
    }
  }

  // ---------------------------------------------------------------------------
  // Properties
  // ---------------------------------------------------------------------------

  /** No branch writes `"hostname"`. */
  lemma LineKeepsHostname(s: Scan, year: int, line: string)
    requires "hostname" in s.report && Line(s, year, line).Some?
    ensures "hostname" in Line(s, year, line).value.report
    ensures Line(s, year, line).value.report["hostname"] == s.report["hostname"]
  {
    if !Skipped(line, year) && !Prefixed(line) && !StartsWith(line, "PID") {
      assert Line(s, year, line) == AppendRow(s, Split(line));
    }
  }

  /** The result always holds the host name it started with. */
  lemma {:induction false} HostnameKept(top: seq<string>, year: int, hostname: string)
    requires ParsedTop(top, year, hostname).Some?
    ensures "hostname" in ParsedTop(top, year, hostname).value
    ensures ParsedTop(top, year, hostname).value["hostname"] == Host(hostname)
    decreases |top|
  {
    if top != [] {
      var front := top[..|top| - 1];
      HostnameKept(front, year, hostname);
      LineKeepsHostname(Scanned(front, year, hostname).value, year, top[|top| - 1]);
    }
  }

  /** The lines the loop does not skip. */
  function Kept(top: seq<string>, year: int): (r: seq<string>)
    ensures forall k :: 0 <= k < |r| ==> !Skipped(r[k], year)
    decreases |top|
  {
    if top == [] then []
    else Kept(top[..|top| - 1], year) + (if Skipped(top[|top| - 1], year) then [] else [top[|top| - 1]])
  }

  /** Blank lines and the time-stamp lines of the given year are skipped: dropping them changes nothing. */
  lemma {:induction false} SkippedLinesIgnored(top: seq<string>, year: int, hostname: string)
    ensures Scanned(top, year, hostname) == Scanned(Kept(top, year), year, hostname)
    ensures ParsedTop(top, year, hostname) == ParsedTop(Kept(top, year), year, hostname)
    decreases |top|
  {
    if top != [] {
      var front := top[..|top| - 1];
      var last := top[|top| - 1];
      SkippedLinesIgnored(front, year, hostname);
      var kept := Kept(top, year);
      if Skipped(last, year) {
        assert kept == Kept(front, year);
        assert Scanned(top, year, hostname) == Scanned(front, year, hostname) by {
          if Scanned(front, year, hostname).Some? {
            var s := Scanned(front, year, hostname).value;
            assert Line(s, year, last) == Some(s);
          }
        }
      } else {
        assert kept == Kept(front, year) + [last];
        assert kept[..|kept| - 1] == Kept(front, year) && kept[|kept| - 1] == last;
      }
    }
  }

  /** The year prefix starts with a digit or a minus sign, never with a letter. */
  lemma YearPrefixStart(year: int)
    ensures |YearPrefix(year)| >= 1 && (IsDigit(YearPrefix(year)[0]) || YearPrefix(year)[0] == '-')
  {
    var n: nat := if year < 0 then -year else year;
    assert AllDigits(Decimal(n));
  }

  /** A line that starts with a letter is never skipped unless it is empty. */
  lemma LetterLineNotSkipped(line: string, year: int)
    requires |line| >= 1 && 'A' <= line[0] <= 'Z'
    ensures !Skipped(line, year)
  {
    YearPrefixStart(year);
  }

  /** `"%d"` text is a token of `str.split()`. */
  lemma FormatIntIsToken(i: int)
    ensures IsToken(FormatInt(i))
  {
    var n: nat := if i < 0 then -i else i;
    assert AllDigits(Decimal(n));
  }

  /** Tokens that are the `"%d"` texts of some integers are read back by `int()` as those integers. */
  lemma IntsOfDecimals(f: seq<string>, at: seq<nat>, vals: seq<int>)
    requires |at| == |vals| && forall j :: 0 <= j < |at| ==> at[j] < |f| && f[at[j]] == FormatInt(vals[j])
    ensures IntsAt(f, at) == Some(vals)
  {
    forall j | 0 <= j < |at|
      ensures Int(f[at[j]]) == Some(vals[j])
    {
      BothConventionsKeepNumerals();
      FormatIntRoundTrip(vals[j], IsSpace);
    }
    assert IntsAt(f, at).value == vals;
  }

  lemma ProcessesCounts(ts: seq<string>, total: int, running: int, sleeping: int, threads: int)
    requires |ts| >= 8
    requires ts[1] == FormatInt(total) && ts[3] == FormatInt(running)
    requires ts[5] == FormatInt(sleeping) && ts[7] == FormatInt(threads)
    ensures IntsAt(ts, [1, 3, 5, 7]) == Some([total, running, sleeping, threads])
  {
    var at: seq<nat> := [1, 3, 5, 7];
    var counts := [total, running, sleeping, threads];
    forall j | 0 <= j < |at|
      ensures at[j] < |ts| && ts[at[j]] == FormatInt(counts[j])
    {
      if j == 0 {} else if j == 1 {} else if j == 2 {} else {}
    }
    IntsOfDecimals(ts, at, counts);
  }

  lemma ProcessesTokens(ts: seq<string>, year: int)
    requires |ts| >= 1 && ts[0] == "Processes:" && forall k :: 0 <= k < |ts| ==> IsToken(ts[k])
    ensures Split(JoinWords(ts)) == ts
    ensures StartsWith(JoinWords(ts), "Processes") && !Skipped(JoinWords(ts), year)
  {
    SplitJoinWords(ts);
    var line := JoinWords(ts);
    if |ts| > 1 {
      assert line == ts[0] + " " + JoinWords(ts[1..]);
    }
    assert line[..9] == "Processes";
    LetterLineNotSkipped(line, year);
  }

  /**
   * A `Processes:` line whose tokens 1, 3, 5 and 7 are the decimal texts
   * of four counts records exactly those counts under `process_counts`,
   * and changes nothing else.
   */
  lemma ProcessesLine(s: Scan, year: int, ts: seq<string>, total: int, running: int, sleeping: int, threads: int)
    requires |ts| >= 8 && ts[0] == "Processes:" && forall k :: 0 <= k < |ts| ==> IsToken(ts[k])
    requires ts[1] == FormatInt(total) && ts[3] == FormatInt(running)
    requires ts[5] == FormatInt(sleeping) && ts[7] == FormatInt(threads)
    ensures Line(s, year, JoinWords(ts)) ==
      Some(s.(report := s.report["process_counts" := Group(map["total" := Num(total), "running" := Num(running),
        "sleeping" := Num(sleeping), "threads" := Num(threads)])]))
  {
    ProcessesTokens(ts, year);
    ProcessesCounts(ts, total, running, sleeping, threads);
    var counts := [total, running, sleeping, threads];
    ProcessesBranch(s, year, JoinWords(ts), counts);
    assert ProcessCounts(counts) == Group(map["total" := Num(total), "running" := Num(running),
      "sleeping" := Num(sleeping), "threads" := Num(threads)]);
  }

  /** The `Processes` branch of the loop, when the counts are read. */
  lemma ProcessesBranch(s: Scan, year: int, line: string, v: seq<int>)
    requires StartsWith(line, "Processes") && !Skipped(line, year)
    requires IntsAt(Split(line), [1, 3, 5, 7]) == Some(v)
    ensures Line(s, year, line) == Some(Put(s, "process_counts", ProcessCounts(v)))
  {
  }

  /** `"(` cuts a token at its first parenthesis: the part before it, or the whole token when it has none. */
  lemma BeforeParenIsPrefix(tok: string)
    ensures BeforeParen(tok) <= tok && '(' !in BeforeParen(tok)
    ensures |BeforeParen(tok)| == |tok| || tok[|BeforeParen(tok)|] == '('
  {
  }

  /**
   * A `VM` line raises unless it has at least nine tokens; then it records
   * tokens 1 and 3 as they are, and tokens 6 and 8 up to their first
   * opening parenthesis, as swap-ins and swap-outs.
   */
  lemma VmLine(s: Scan, year: int, line: string)
    requires StartsWith(line, "VM")
    ensures Line(s, year, line).Some? <==> |Split(line)| >= 9
    ensures Line(s, year, line).Some? ==>
      var f := Split(line);
      Line(s, year, line) == Some(s.(report := s.report["vm" := Group(map["vsize" := Str(f[1]),
        "framework_vsize" := Str(f[3]), "swapin" := Str(BeforeParen(f[6])), "swapout" := Str(BeforeParen(f[8]))])]))
  {
    assert line[0] == 'V' by { assert line[..2] == "VM"; }
    LetterLineNotSkipped(line, year);
    Mismatch(line, "Processes", 0);
    Mismatch(line, "Load Avg", 0);
    Mismatch(line, "CPU usage", 0);
    Mismatch(line, "SharedLibs", 0);
    Mismatch(line, "MemRegions", 0);
    Mismatch(line, "PhysMem", 0);
    var f := Split(line);
    var at: seq<nat> := [1, 3, 6, 8];
    if |f| < 9 {
      assert at[3] >= |f|;
      assert TextsAt(f, at) == None;
    } else {
      assert TextsAt(f, at).value == [f[1], f[3], f[6], f[8]];
    }
  }

  /** `int()` then reads back the count and the text after the slash. */
  lemma TransferRoundTrip(n: int, amount: string)
    requires '/' !in amount
    ensures Transfer(FormatInt(n) + "/" + amount) == Some((n, amount))
  {
    var d := FormatInt(n);
    assert '/' !in d by {
      var m: nat := if n < 0 then -n else n;
      assert AllDigits(Decimal(m));
    }
    SplitOnJoin([d, amount], '/');
    assert JoinOn([d, amount], '/') == d + "/" + amount;
    BothConventionsKeepNumerals();
    FormatIntRoundTrip(n, IsSpace);
  }

  /** A transfer token without a slash raises (`IndexError` on the missing second part, or `ValueError`). */
  lemma TransferNeedsSlash(tok: string)
    requires '/' !in tok
    ensures Transfer(tok) == None
  {
    assert IndexOf(tok, '/') == |tok|;
  }

  /**
   * A `Networks` line whose tokens 2 and 4 are `count/amount` records the
   * counts as integers and the amounts as text, and changes nothing else.
   */
  lemma NetworksLine(s: Scan, year: int, line: string, pin: int, din: string, pout: int, dout: string)
    requires StartsWith(line, "Networks") && |Split(line)| >= 5
    requires '/' !in din && '/' !in dout
    requires Split(line)[2] == FormatInt(pin) + "/" + din && Split(line)[4] == FormatInt(pout) + "/" + dout
    ensures Line(s, year, line) == Some(s.(report := s.report["network" := Group(map["packets_in" := Num(pin),
      "data_in" := Str(din), "packets_out" := Num(pout), "data_out" := Str(dout)])]))
  {
    NetworksBranch(s, year, line);
    TransferRoundTrip(pin, din);
    TransferRoundTrip(pout, dout);
    TransfersOf(Split(line), [2, 4], (pin, din), (pout, dout));
  }

  lemma NetworksBranch(s: Scan, year: int, line: string)
    requires StartsWith(line, "Networks")
    ensures Line(s, year, line) ==
      match Transfers(Split(line), [2, 4]) case None => None case Some(p) => Some(Put(s, "network", Network(p.0, p.1)))
  {
    assert line[0] == 'N' by { assert line[..8] == "Networks"; }
    LetterLineNotSkipped(line, year);
    Mismatch(line, "Processes", 0);
    Mismatch(line, "Load Avg", 0);
    Mismatch(line, "CPU usage", 0);
    Mismatch(line, "SharedLibs", 0);
    Mismatch(line, "MemRegions", 0);
    Mismatch(line, "PhysMem", 0);
    Mismatch(line, "VM", 0);
  }

  lemma TransfersOf(f: seq<string>, at: seq<nat>, i: (int, string), o: (int, string))
    requires |at| == 2 && at[0] < |f| && at[1] < |f|
    requires Transfer(f[at[0]]) == Some(i) && Transfer(f[at[1]]) == Some(o)
    ensures Transfers(f, at) == Some((i, o))
  {
    assert TextsAt(f, at).value == [f[at[0]], f[at[1]]];
  }

  /**
   * A `Disks` line whose tokens 1 and 3 are `count/amount` records the
   * sector counts as integers and the amounts as text, and changes nothing
   * else.
   */
  lemma DisksLine(s: Scan, year: int, line: string, nr: int, dr: string, nw: int, dw: string)
    requires StartsWith(line, "Disks") && |Split(line)| >= 4
    requires '/' !in dr && '/' !in dw
    requires Split(line)[1] == FormatInt(nr) + "/" + dr && Split(line)[3] == FormatInt(nw) + "/" + dw
    ensures Line(s, year, line) == Some(s.(report := s.report["disk_usage" := Group(map["sectors_read" := Num(nr),
      "data_read" := Str(dr), "sectors_written" := Num(nw), "data_written" := Str(dw)])]))
  {
    DisksBranch(s, year, line);
    TransferRoundTrip(nr, dr);
    TransferRoundTrip(nw, dw);
    TransfersOf(Split(line), [1, 3], (nr, dr), (nw, dw));
  }

  lemma DisksBranch(s: Scan, year: int, line: string)
    requires StartsWith(line, "Disks")
    ensures Line(s, year, line) ==
      match Transfers(Split(line), [1, 3]) case None => None case Some(p) => Some(Put(s, "disk_usage", Disks(p.0, p.1)))
  {
    assert line[0] == 'D' by { assert line[..5] == "Disks"; }
    LetterLineNotSkipped(line, year);
    Mismatch(line, "Processes", 0);
    Mismatch(line, "Load Avg", 0);
    Mismatch(line, "CPU usage", 0);
    Mismatch(line, "SharedLibs", 0);
    Mismatch(line, "MemRegions", 0);
    Mismatch(line, "PhysMem", 0);
    Mismatch(line, "VM", 0);
    Mismatch(line, "Networks", 0);
  }

  /** A line starting with `PID` sets the column map to its tokens and changes nothing else. */
  lemma PidLine(s: Scan, year: int, line: string)
    requires StartsWith(line, "PID")
    ensures Line(s, year, line) == Some(s.(columns := Some(Split(line))))
  {
    assert line[0] == 'P' && line[1] == 'I' by { assert line[..3] == "PID"; }
    LetterLineNotSkipped(line, year);
    Mismatch(line, "Processes", 1);
    Mismatch(line, "Load Avg", 0);
    Mismatch(line, "CPU usage", 0);
    Mismatch(line, "SharedLibs", 0);
    Mismatch(line, "MemRegions", 0);
    Mismatch(line, "PhysMem", 1);
    Mismatch(line, "VM", 0);
    Mismatch(line, "Networks", 0);
    Mismatch(line, "Disks", 0);
  }

  /** Every other line that is not skipped is a process row (see `ProcessTable.AppendRowOfHeader`). */
  lemma ProcessLine(s: Scan, year: int, line: string)
    requires !Skipped(line, year) && !Prefixed(line) && !StartsWith(line, "PID")
    ensures Line(s, year, line) == AppendRow(s, Split(line))
  {
  }

  /** A line with a summary prefix never touches the process table or the column map. */
  lemma SummaryLinesKeepProcesses(s: Scan, year: int, line: string)
    requires Prefixed(line) && Line(s, year, line).Some?
    ensures Line(s, year, line).value.columns == s.columns
    ensures ProcessRows(Line(s, year, line).value.report) == ProcessRows(s.report)
  {
  }
}
