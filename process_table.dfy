/**
 * The process table that both `top` scrapers (linux_sys_stats.py and
 * mac_sys_stats.py) build the same way: a `PID` header row gives each
 * column name its index (`out_fields`), and every later process row
 * becomes a dictionary from the lower-cased column names to the row's
 * tokens.  The report itself is a dictionary of named groups.
 */
module ProcessTable {
  import opened Common
  import opened PyText

  // ---------------------------------------------------------------------------
  // The report
  // ---------------------------------------------------------------------------

  /** A value of a reported group: an `int()` result or a token kept as text (the float readings are kept as text). */
  datatype Value = Num(n: int) | Str(s: string)

  /** What `retDict` maps a key to. */
  datatype Entry = Host(name: string) | Group(values: map<string, Value>) | Processes(rows: seq<map<string, string>>)

  type Report = map<string, Entry>

  /** `{"hostname": node()}`. */
  function InitialReport(hostname: string): Report
  {
    map["hostname" := Host(hostname)]
  }

  /** The process rows collected so far. */
  function ProcessRows(r: Report): seq<map<string, string>>
  {
    if "processes" in r && r["processes"].Processes? then r["processes"].rows else []
  }

  /** `retDict["processes"].append(pdict)`, creating the list first when it is missing. */
  function AddProcess(r: Report, row: map<string, string>): (after: Report)
    ensures ProcessRows(after) == ProcessRows(r) + [row]
    ensures forall k :: k in r && k != "processes" ==> k in after && after[k] == r[k]
    ensures after.Keys == r.Keys + {"processes"}
  {
    r["processes" := Processes(ProcessRows(r) + [row])]
  }

  /** `str.startswith`. */
  predicate StartsWith(s: string, prefix: string)
  {
    |prefix| <= |s| && s[..|prefix|] == prefix
  }

  /** A line that starts with a prefix agrees with it in its first two characters: how the dispatch tells its prefixes apart. */
  lemma LeadingChars(line: string)
    ensures forall q :: StartsWith(line, q) && |q| >= 1 ==> line[0] == q[0]
    ensures forall q :: StartsWith(line, q) && |q| >= 2 ==> line[1] == q[1]
  {
    forall q | StartsWith(line, q) && |q| >= 1
      ensures line[0] == q[0]
    {
      assert line[..|q|][0] == line[0];
    }
    forall q | StartsWith(line, q) && |q| >= 2
      ensures line[1] == q[1]
    {
      assert line[..|q|][1] == line[1];
    }
  }

  /** A line that differs from a prefix at one of the prefix's positions does not start with it. */
  lemma Mismatch(line: string, q: string, i: nat)
    requires i < |q| && (i >= |line| || line[i] != q[i])
    ensures !StartsWith(line, q)
  {
    if |q| <= |line| {
      assert line[..|q|][i] == line[i];
    }
  }

  /** `t[:-1]`: the token without its last character (a trailing comma). */
  function Chop(t: string): string
  {
    if t == [] then [] else t[..|t| - 1]
  }

  /** The tokens at the given positions, or None (IndexError) when the line is too short. */
  function TextsAt(f: seq<string>, at: seq<nat>): (r: Option<seq<string>>)
    ensures r.Some? <==> forall j :: 0 <= j < |at| ==> at[j] < |f|
    ensures r.Some? ==> |r.value| == |at| && forall j :: 0 <= j < |at| ==> r.value[j] == f[at[j]]
  {
    if at == [] then Some([])
    else if at[0] >= |f| then None
    else match TextsAt(f, at[1..])
      case None => None
      case Some(rest) => Some([f[at[0]]] + rest)
  }

  /** `int()` of the tokens at the given positions, or None when one is missing or not an integer. */
  function IntsAt(f: seq<string>, at: seq<nat>): (r: Option<seq<int>>)
    ensures r.Some? <==> forall j :: 0 <= j < |at| ==> at[j] < |f| && Int(f[at[j]]).Some?
    ensures r.Some? ==> |r.value| == |at| && forall j :: 0 <= j < |at| ==> Int(f[at[j]]) == Some(r.value[j])
  {
    if at == [] then Some([])
    else if at[0] >= |f| then None
    else match Int(f[at[0]])
      case None => None
      case Some(v) =>
        match IntsAt(f, at[1..])
          case None => None
          case Some(rest) => Some([v] + rest)
  }

  // ---------------------------------------------------------------------------
  // The header row and the process rows
  // ---------------------------------------------------------------------------

  /** `out_fields`: the column of each name, and the names in insertion order (the order a dict iterates in). */
  datatype Header = Header(index: map<string, nat>, order: seq<string>)

  /** The names are exactly the keys, each once. */
  ghost predicate Consistent(h: Header)
  {
    (forall n :: n in h.index <==> n in h.order) &&
    (forall i, j :: 0 <= i < j < |h.order| ==> h.order[i] != h.order[j])
  }

  /** `out_fields[name] = lnum`: a repeated name keeps its place and takes the later column. */
  function Enter(h: Header, name: string, lnum: nat): Header
  {
    Header(h.index[name := lnum], if name in h.index then h.order else h.order + [name])
  }

  /** The header built from the tokens of a `PID` row by `enumerate`. */
  function HeaderOf(fields: seq<string>): (h: Header)
    ensures Consistent(h)
    decreases |fields|
  {
    if fields == [] then Header(map[], [])
    else
      var h0 := HeaderOf(fields[..|fields| - 1]);
      Enter(h0, fields[|fields| - 1], |fields| - 1)
  }

  /** Distinct names. */
  predicate Distinct(s: seq<string>)
  {
    forall i, j :: 0 <= i < j < |s| ==> s[i] != s[j]
  }

  /** Of distinct names, each has its own position as its column, in their order. */
  lemma {:induction false} HeaderOfDistinct(cols: seq<string>)
    requires Distinct(cols)
    ensures HeaderOf(cols).order == cols
    ensures forall i :: 0 <= i < |cols| ==> HeaderOf(cols).index[cols[i]] == i
    decreases |cols|
  {
    if cols != [] {
      var m := |cols| - 1;
      var p := cols[..m];
      assert Distinct(p) by {
        forall i, j | 0 <= i < j < |p| ensures p[i] != p[j] { assert p[i] == cols[i] && p[j] == cols[j]; }
      }
      HeaderOfDistinct(p);
      var h0 := HeaderOf(p);
      assert cols[m] !in h0.index by {
        forall i | 0 <= i < m ensures h0.order[i] != cols[m] { assert p[i] == cols[i]; }
      }
      assert HeaderOf(cols) == Enter(h0, cols[m], m);
      assert p + [cols[m]] == cols;
      forall i | 0 <= i < |cols|
        ensures HeaderOf(cols).index[cols[i]] == i
      {
        if i < m {
          assert cols[i] == p[i];
          assert cols[i] != cols[m];
        }
      }
    }
  }

  /** `pdict` over the first `k` names of the header: name lower-cased, to the token in its column. */
  function Record(h: Header, fields: seq<string>, k: nat): Option<map<string, string>>
    requires Consistent(h) && k <= |h.order|
    decreases k
  {
    if k == 0 then Some(map[])
    else match Record(h, fields, k - 1)
      case None => None
      case Some(m) =>
        var name := h.order[k - 1];
        if h.index[name] < |fields| then Some(m[Lower(name) := fields[h.index[name]]]) else None
  }

  function Row(h: Header, fields: seq<string>): Option<map<string, string>>
    requires Consistent(h)
  {
    Record(h, fields, |h.order|)
  }

  /** Names whose lower-cased forms are distinct. */
  predicate DistinctLower(cols: seq<string>)
  {
    forall i, j :: 0 <= i < j < |cols| ==> Lower(cols[i]) != Lower(cols[j])
  }

  /** The lower-cased first `k` names. */
  function LowerKeys(cols: seq<string>, k: nat): set<string>
    requires k <= |cols|
  {
    if k == 0 then {} else LowerKeys(cols, k - 1) + {Lower(cols[k - 1])}
  }

  lemma {:induction false} LowerKeysMembers(cols: seq<string>, k: nat)
    requires k <= |cols|
    ensures forall key :: key in LowerKeys(cols, k) <==> exists i :: 0 <= i < k && key == Lower(cols[i])
  {
    if k > 0 {
      LowerKeysMembers(cols, k - 1);
      forall key
        ensures key in LowerKeys(cols, k) <==> exists i :: 0 <= i < k && key == Lower(cols[i])
      {
        if key in LowerKeys(cols, k - 1) {
          var i :| 0 <= i < k - 1 && key == Lower(cols[i]);
          assert 0 <= i < k && key == Lower(cols[i]);
        } else if key == Lower(cols[k - 1]) {
          assert 0 <= k - 1 < k && key == Lower(cols[k - 1]);
        }
      }
    }
  }

  /** `m` holds exactly the lower-cased first `k` names, each mapped to the token in its own column. */
  ghost predicate Columns(m: map<string, string>, cols: seq<string>, fields: seq<string>, k: nat)
    requires k <= |cols| && k <= |fields|
  {
    m.Keys == LowerKeys(cols, k) &&
    forall i :: 0 <= i < k ==> Lower(cols[i]) in m && m[Lower(cols[i])] == fields[i]
  }

  /** A consistent header that gives each name its own position, the names distinct when lower-cased. */
  ghost predicate Positional(h: Header)
  {
    && Consistent(h) && DistinctLower(h.order)
    && forall i :: 0 <= i < |h.order| ==> h.order[i] in h.index && h.index[h.order[i]] == i
  }

  /** The record over the first `k` columns of a header that gives each name its own position is defined exactly when the row reaches column `k`. */
  lemma {:induction false} RecordDefined(h: Header, fields: seq<string>, k: nat)
    requires Positional(h) && k <= |h.order|
    ensures Record(h, fields, k).Some? <==> k <= |fields|
    decreases k
  {
    if k > 0 {
      RecordDefined(h, fields, k - 1);
      assert h.index[h.order[k - 1]] == k - 1;
    }
  }

  /** The record over the first `k` columns of a header whose names stay distinct when lower-cased. */
  lemma {:induction false} RecordOfColumns(h: Header, fields: seq<string>, k: nat)
    requires Positional(h) && k <= |h.order| && k <= |fields|
    ensures Record(h, fields, k).Some? && Columns(Record(h, fields, k).value, h.order, fields, k)
    decreases k
  {
    if k > 0 {
      RecordOfColumns(h, fields, k - 1);
      RecordStep(h, fields, k);
    }
  }

  /** One more column of such a header keeps the record exact. */
  lemma RecordStep(h: Header, fields: seq<string>, k: nat)
    requires Positional(h) && 0 < k <= |h.order| && k <= |fields|
    requires Record(h, fields, k - 1).Some? && Columns(Record(h, fields, k - 1).value, h.order, fields, k - 1)
    ensures Record(h, fields, k).Some? && Columns(Record(h, fields, k).value, h.order, fields, k)
  {
    var m0 := Record(h, fields, k - 1).value;
    assert Record(h, fields, k) == Some(m0[Lower(h.order[k - 1]) := fields[k - 1]]);
    ColumnsStep(m0, h.order, fields, k);
  }

  /** Entering the `k`-th column keeps the record exact when its lower-cased name is new. */
  lemma ColumnsStep(m0: map<string, string>, cols: seq<string>, fields: seq<string>, k: nat)
    requires 0 < k <= |cols| && k <= |fields| && Columns(m0, cols, fields, k - 1)
    requires DistinctLower(cols)
    ensures Columns(m0[Lower(cols[k - 1]) := fields[k - 1]], cols, fields, k)
  {
    var m := m0[Lower(cols[k - 1]) := fields[k - 1]];
    assert m.Keys == m0.Keys + {Lower(cols[k - 1])};
    forall i | 0 <= i < k
      ensures Lower(cols[i]) in m && m[Lower(cols[i])] == fields[i]
    {
      if i < k - 1 {
        assert Lower(cols[i]) != Lower(cols[k - 1]);
      }
    }
  }

  /** The header of names that stay distinct when lower-cased gives each its own position. */
  lemma PositionalHeader(cols: seq<string>)
    requires DistinctLower(cols)
    ensures HeaderOf(cols).order == cols && Positional(HeaderOf(cols))
  {
    assert Distinct(cols) by {
      forall i, j | 0 <= i < j < |cols|
        ensures cols[i] != cols[j]
      {
        assert Lower(cols[i]) != Lower(cols[j]);
      }
    }
    HeaderOfDistinct(cols);
  }

  /**
   * A process row under a header whose names stay distinct when
   * lower-cased: defined exactly when the row has a token in every column,
   * and then its keys are the lower-cased names, each mapped to the token
   * in that name's column.
   */
  lemma RowOfHeader(cols: seq<string>, fields: seq<string>)
    requires DistinctLower(cols)
    ensures var r := Row(HeaderOf(cols), fields);
      (r.Some? <==> |cols| <= |fields|) &&
      (r.Some? ==>
        (forall key :: key in r.value <==> exists i :: 0 <= i < |cols| && key == Lower(cols[i])) &&
        (forall i :: 0 <= i < |cols| ==> r.value[Lower(cols[i])] == fields[i]))
  {
    PositionalHeader(cols);
    var h := HeaderOf(cols);
    RecordDefined(h, fields, |cols|);
    if |cols| <= |fields| {
      RecordOfColumns(h, fields, |cols|);
      LowerKeysMembers(cols, |cols|);
    }
  }

  /** The `PID` branch: `out_fields` built by `enumerate`. */
  method BuildHeader(fields: seq<string>) returns (h: Header)
    ensures h == HeaderOf(fields)
  {
    h := Header(map[], []);
    var lnum := 0;
    while lnum < |fields|
      invariant lnum <= |fields| && h == HeaderOf(fields[..lnum])
    {
      assert fields[..lnum + 1][..lnum] == fields[..lnum];
      var name := fields[lnum];
      if name !in h.index {
        h := h.(order := h.order + [name]);
      }
      h := h.(index := h.index[name := lnum]);
      lnum := lnum + 1;
    }
    assert fields[..lnum] == fields;
  }

  /** The process branch: `pdict`, or None when a column is past the end of the row. */
  method BuildRow(h: Header, fields: seq<string>) returns (r: Option<map<string, string>>)
    requires Consistent(h)
    ensures r == Row(h, fields)
  {
    var pdict: map<string, string> := map[];
    var k := 0;
    while k < |h.order|
      invariant k <= |h.order| && Record(h, fields, k) == Some(pdict)
    {
      var name := h.order[k];
      if h.index[name] >= |fields| {
        RecordStops(h, fields, k + 1);
        return None;
      }
      pdict := pdict[Lower(name) := fields[h.index[name]]];
      k := k + 1;
    }
    r := Some(pdict);
  }

  /** Once a column is missing, every longer record is missing too. */
  lemma {:induction false} RecordStops(h: Header, fields: seq<string>, k: nat)
    requires Consistent(h) && 0 < k <= |h.order|
    requires Record(h, fields, k) == None
    ensures Row(h, fields) == None
    decreases |h.order| - k
  {
    if k < |h.order| {
      RecordStops(h, fields, k + 1);
    }
  }

  // ---------------------------------------------------------------------------
  // The loop state shared by both scrapers
  // ---------------------------------------------------------------------------

  /** What the loop carries from line to line: the report, and the tokens of the last `PID` row (`out_fields` is unbound until one is seen). */
  datatype Scan = Scan(report: Report, columns: Option<seq<string>>)

  /** `retDict[key] = {...}`. */
  function Put(s: Scan, key: string, e: Entry): Scan
  {
    s.(report := s.report[key := e])
  }

  /** The branch of an unrecognised line: one more record under the current header, or None when `out_fields` is unbound or the row is too short. */
  function AppendRow(s: Scan, f: seq<string>): Option<Scan>
  {
    match s.columns
    case None => None
    case Some(cols) =>
      match Row(HeaderOf(cols), f)
      case None => None
      case Some(row) => Some(s.(report := AddProcess(s.report, row)))
  }

  /**
   * Once a header without two names equal up to case has been read, a row
   * is taken exactly when it has a token in every column; it then appends
   * one record to `processes`, whose keys are the lower-cased header
   * names, each mapped to the token in that name's column.  The header and
   * every other entry of the report are kept.
   */
  lemma AppendRowOfHeader(s: Scan, f: seq<string>, cols: seq<string>)
    requires s.columns == Some(cols) && DistinctLower(cols)
    ensures AppendRow(s, f).Some? <==> |cols| <= |f|
    ensures AppendRow(s, f).Some? ==>
      var after := AppendRow(s, f).value;
      after.columns == s.columns &&
      (forall k :: k in s.report && k != "processes" ==> k in after.report && after.report[k] == s.report[k]) &&
      |ProcessRows(after.report)| == |ProcessRows(s.report)| + 1 &&
      ProcessRows(after.report)[..|ProcessRows(s.report)|] == ProcessRows(s.report) &&
      var row := ProcessRows(after.report)[|ProcessRows(s.report)|];
      (forall key :: key in row <==> exists i :: 0 <= i < |cols| && key == Lower(cols[i])) &&
      (forall i :: 0 <= i < |cols| ==> row[Lower(cols[i])] == f[i])
  {
    RowOfHeader(cols, f);
  }

  /** A process row before any `PID` row raises: `out_fields` is unbound. */
  lemma RowBeforeHeaderRaises(s: Scan, f: seq<string>)
    requires s.columns == None
    ensures AppendRow(s, f) == None
  {
  }

  /** The summary branches never touch the process table or the column map. */
  lemma PutKeepsProcesses(s: Scan, key: string, e: Entry)
    requires key != "processes"
    ensures Put(s, key, e).columns == s.columns
    ensures ProcessRows(Put(s, key, e).report) == ProcessRows(s.report)
  {
  }
}
