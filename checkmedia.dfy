/**
 * The bookkeeping of checkmedia.py, which keeps an md5 sum of every file
 * under a directory in a database and rehashes a file only when its stat
 * data changed: the number of worker threads, the round-robin split of the
 * sorted file list among them, and the rule each worker applies per file.
 *
 * The directory walk, `os.stat`, the md5 computation and the sqlite
 * database are inputs: the walk's output is a list of directories with
 * their file names, a stat is a value or None (stat failed), a hash is the
 * text `computeHash` returns ("" on failure), and the database is the list
 * of rows inserted so far.  Threads, locking and logging are not modelled.
 */
module CheckMedia {
  import opened Common
  import opened PyText

  // ---------------------------------------------------------------------------
  // Threads and the split of the work
  // ---------------------------------------------------------------------------

  /** `NUMTHREADS`: half the CPUs rounded down, plus one when that is at most one. */
  function NumThreads(cpus: nat): (n: nat)
    ensures n >= 1
    ensures cpus >= 4 ==> n == cpus / 2
    ensures cpus < 4 ==> n == 1 + cpus / 2
  {
    var half := cpus / 2;
    if half <= 1 then half + 1 else half
  }

  /** The files at positions `k` with `k % n == i`, in their order: worker `i`'s share. */
  function Bucket(files: seq<string>, n: nat, i: nat): seq<string>
    requires n >= 1
    decreases |files|
  {
    if files == [] then []
    else Bucket(files[..|files| - 1], n, i) + (if (|files| - 1) % n == i then [files[|files| - 1]] else [])
  }

  lemma {:induction false} MulLe(x: nat, y: nat, n: nat)
    requires x <= y
    ensures x * n <= y * n
    decreases y - x
  {
    if x < y {
      MulLe(x, y - 1, n);
      assert y * n == (y - 1) * n + n;
    }
  }

  /** Euclidean division is determined by quotient and remainder. */
  lemma DivModOf(a: nat, n: nat, q: nat, r: nat)
    requires n >= 1 && a == q * n + r && r < n
    ensures a / n == q && a % n == r
  {
    var q0, r0 := a / n, a % n;
    assert a == q0 * n + r0;
    if q0 < q {
      MulLe(q0 + 1, q, n);
      assert false;
    } else if q0 > q {
      MulLe(q + 1, q0, n);
      assert false;
    }
  }

  lemma DivModNext(m: nat, n: nat)
    requires n >= 1
    ensures (m + 1) % n == (if m % n == n - 1 then 0 else m % n + 1)
    ensures (m + 1) / n == (if m % n == n - 1 then m / n + 1 else m / n)
  {
    var q, r := m / n, m % n;
    if r == n - 1 {
      DivModOf(m + 1, n, q + 1, 0);
    } else {
      DivModOf(m + 1, n, q, r + 1);
    }
  }

  /** Shares are as even as can be: the first `|files| % n` workers get one file more. */
  lemma {:induction false} BucketSize(files: seq<string>, n: nat, i: nat)
    requires n >= 1 && i < n
    ensures |Bucket(files, n, i)| == |files| / n + (if i < |files| % n then 1 else 0)
    decreases |files|
  {
    if files != [] {
      var m := |files| - 1;
      BucketSize(files[..m], n, i);
      DivModNext(m, n);
    }
  }

  /** Any two shares differ in size by at most one file. */
  lemma BucketsBalanced(files: seq<string>, n: nat, i: nat, j: nat)
    requires n >= 1 && i < n && j < n
    ensures -1 <= |Bucket(files, n, i)| - |Bucket(files, n, j)| <= 1
  {
    BucketSize(files, n, i);
    BucketSize(files, n, j);
  }

  /** The share of a prefix of the list is a prefix of the share. */
  lemma {:induction false} BucketPrefix(files: seq<string>, n: nat, i: nat, j: nat)
    requires n >= 1 && j <= |files|
    ensures Bucket(files[..j], n, i) <= Bucket(files, n, i)
    decreases |files|
  {
    if j < |files| {
      var m := |files| - 1;
      assert files[..m][..j] == files[..j];
      BucketPrefix(files[..m], n, i, j);
    } else {
      assert files[..j] == files;
    }
  }

  /** File `k` is the `k / n`-th file of worker `k % n`. */
  lemma BucketIndex(files: seq<string>, n: nat, k: nat)
    requires n >= 1 && k < |files|
    ensures k / n < |Bucket(files, n, k % n)| && Bucket(files, n, k % n)[k / n] == files[k]
  {
    var i := k % n;
    BucketSize(files[..k], n, i);
    assert files[..k + 1][..k] == files[..k];
    assert Bucket(files[..k + 1], n, i) == Bucket(files[..k], n, i) + [files[k]];
    BucketPrefix(files, n, i, k + 1);
  }

  /** Conversely, the `p`-th file of worker `i` is file `p * n + i`: a share is exactly its positions, in order. */
  lemma BucketElements(files: seq<string>, n: nat, i: nat, p: nat)
    requires n >= 1 && i < n && p < |Bucket(files, n, i)|
    ensures p * n + i < |files| && Bucket(files, n, i)[p] == files[p * n + i]
  {
    BucketSize(files, n, i);
    PositionInRange(|files|, n, i, p);
    DivModOf(p * n + i, n, p, i);
    BucketIndex(files, n, p * n + i);
  }

  lemma PositionInRange(len: nat, n: nat, i: nat, p: nat)
    requires n >= 1 && i < n && p < len / n + (if i < len % n then 1 else 0)
    ensures p * n + i < len
  {
    var q, r := len / n, len % n;
    assert len == q * n + r;
    if p < q {
      MulLe(p + 1, q, n);
      assert (p + 1) * n == p * n + n;
    } else {
      assert p == q && i < r;
    }
  }

  lemma BucketNext(files: seq<string>, n: nat, i: nat, k: nat)
    requires n >= 1 && k < |files|
    ensures Bucket(files[..k + 1], n, i) == Bucket(files[..k], n, i) + (if k % n == i then [files[k]] else [])
  {
    assert files[..k + 1][..k] == files[..k];
  }

  /** One empty list per worker. */
  method EmptyShares(n: nat) returns (paths: map<nat, seq<string>>)
    ensures forall j: nat :: j in paths <==> j < n
    ensures forall j :: j in paths ==> paths[j] == []
  {
    paths := map[];
    var i := 0;
    while i < n
      invariant i <= n
      invariant forall j: nat :: j in paths <==> j < i
      invariant forall j :: j in paths ==> paths[j] == []
    {
      paths := paths[i := []];
      i := i + 1;
    }
  }

  /**
   * The split in `__main__`: one list per worker, then each file appended
   * to the list of the counter, which wraps around at `n`.
   */
  method Partition(files: seq<string>, n: nat) returns (paths: map<nat, seq<string>>)
    requires n >= 1
    ensures forall i: nat :: i in paths <==> i < n
    ensures forall i :: 0 <= i < n ==> paths[i] == Bucket(files, n, i)
  {
    paths := EmptyShares(n);
    var count := 0;
    var k := 0;
    DivModOf(0, n, 0, 0);
    while k < |files|
      invariant k <= |files| && count == k % n
      invariant forall j: nat :: j in paths <==> j < n
      invariant forall j :: 0 <= j < n ==> paths[j] == Bucket(files[..k], n, j)
    {
      DivModNext(k, n);
      paths := paths[count := paths[count] + [files[k]]];
      forall j | 0 <= j < n
        ensures paths[j] == Bucket(files[..k + 1], n, j)
      {
        BucketNext(files, n, j, k);
      }
      count := count + 1;
      if count == n {
        count := 0;
      }
      k := k + 1;
    }
    assert files[..k] == files;
  }

  // ---------------------------------------------------------------------------
  // The file list
  // ---------------------------------------------------------------------------

  /** One directory of `os.walk`: its path and the names of the files in it. */
  datatype WalkEntry = WalkEntry(root: string, files: seq<string>)

  function FullPath(root: string, item: string): string
  {
    root + "/" + Strip(item, IsSpace)
  }

  /** The full paths of `items`, in order. */
  function FullPaths(root: string, items: seq<string>): (r: seq<string>)
    ensures |r| == |items|
    decreases |items|
  {
    if items == [] then [] else FullPaths(root, items[..|items| - 1]) + [FullPath(root, items[|items| - 1])]
  }

  /** The full paths of every file of the walk, directory by directory. */
  function Listed(walk: seq<WalkEntry>): seq<string>
    decreases |walk|
  {
    if walk == [] then [] else Listed(walk[..|walk| - 1]) + FullPaths(walk[|walk| - 1].root, walk[|walk| - 1].files)
  }

  /** Python's string order: lexicographic by code point. */
  predicate LessEq(a: string, b: string)
    decreases |a|
  {
    a == [] || (b != [] && (a[0] < b[0] || (a[0] == b[0] && LessEq(a[1..], b[1..]))))
  }

  lemma {:induction false} LessEqTotal(a: string, b: string)
    ensures LessEq(a, b) || LessEq(b, a)
    decreases |a|
  {
    if a != [] && b != [] && a[0] == b[0] {
      LessEqTotal(a[1..], b[1..]);
    }
  }

  predicate Ordered(s: seq<string>)
  {
    forall i :: 0 <= i < |s| - 1 ==> LessEq(s[i], s[i + 1])
  }

  /** `x` put into an ordered list before the first element it does not exceed. */
  function InsertOrdered(x: string, s: seq<string>): (r: seq<string>)
    requires Ordered(s)
    ensures Ordered(r) && multiset(r) == multiset(s) + multiset{x}
    ensures r != [] && (r[0] == x || (s != [] && r[0] == s[0]))
  {
    if s == [] then [x]
    else if LessEq(x, s[0]) then [x] + s
    else
      LessEqTotal(x, s[0]);
      assert s == [s[0]] + s[1..];
      [s[0]] + InsertOrdered(x, s[1..])
  }

  /** `sorted`: the same strings in order. */
  function Sort(s: seq<string>): (r: seq<string>)
    ensures Ordered(r) && multiset(r) == multiset(s)
  {
    if s == [] then []
    else
      assert s == [s[0]] + s[1..];
      InsertOrdered(s[0], Sort(s[1..]))
  }

  /** `getFileList`: every file of the walk as root, separator and stripped name, sorted. */
  method GetFileList(walk: seq<WalkEntry>) returns (r: seq<string>)
    ensures r == Sort(Listed(walk))
  {
    var filelist: seq<string> := [];
    var d := 0;
    while d < |walk|
      invariant d <= |walk| && filelist == Listed(walk[..d])
    {
      var entry := walk[d];
      var j := 0;
      while j < |entry.files|
        invariant j <= |entry.files| && filelist == Listed(walk[..d]) + FullPaths(entry.root, entry.files[..j])
      {
        assert entry.files[..j + 1][..j] == entry.files[..j];
        filelist := filelist + [FullPath(entry.root, entry.files[j])];
        j := j + 1;
      }
      assert entry.files[..j] == entry.files;
      assert walk[..d + 1][..d] == walk[..d];
      d := d + 1;
    }
    assert walk[..d] == walk;
    r := Sort(filelist);
  }

  // ---------------------------------------------------------------------------
  // Stat data and the database
  // ---------------------------------------------------------------------------

  datatype FStat = FStat(size: int, atime: int, mtime: int, ctime: int)

  /** `getFStat`: a file's size and times, or all four zero when it cannot be statted. */
  function GetFStat(stat: Option<FStat>): FStat
  {
    if stat.Some? then stat.value else FStat(0, 0, 0, 0)
  }

  /**
   * `compareStats`: false for a file whose access time is zero (which is
   * what a failed stat gives), else whether size and all three times match.
   */
  function CompareStats(stat: Option<FStat>, atime: int, mtime: int, ctime: int, size: int): (r: bool)
    ensures r <==> stat.Some? && stat.value.atime != 0 && stat.value == FStat(size, atime, mtime, ctime)
  {
    var fs := GetFStat(stat);
    if fs.atime == 0 then false
    else !(fs.size != size || fs.atime != atime || fs.mtime != mtime || fs.ctime != ctime)
  }

  /** A row of the `media` table (its timestamp column is left out). */
  datatype Row = Row(path: string, md5: string, atime: int, mtime: int, ctime: int, size: int)

  /** What `getDB` returns: six Nones when the path has no row, else the values of its latest row. */
  datatype Record = NoRecord | Record(md5: string, atime: int, mtime: int, ctime: int, size: int)

  /** The last row inserted for `path`. */
  function Latest(rows: seq<Row>, path: string): (r: Option<Row>)
    ensures r.Some? ==> r.value in rows && r.value.path == path
    decreases |rows|
  {
    if rows == [] then None
    else if rows[|rows| - 1].path == path then Some(rows[|rows| - 1])
    else Latest(rows[..|rows| - 1], path)
  }

  /** A path has no record exactly when no row carries it. */
  lemma {:induction false} LatestNone(rows: seq<Row>, path: string)
    ensures Latest(rows, path).None? <==> forall k :: 0 <= k < |rows| ==> rows[k].path != path
    decreases |rows|
  {
    if rows != [] {
      var m := |rows| - 1;
      LatestNone(rows[..m], path);
      if rows[m].path != path {
        assert forall k :: 0 <= k < m ==> rows[..m][k] == rows[k];
      }
    }
  }

  /** Otherwise its record is its last row: no later row carries the path. */
  lemma {:induction false} LatestIsLast(rows: seq<Row>, path: string) returns (k: nat)
    requires Latest(rows, path).Some?
    ensures k < |rows| && rows[k] == Latest(rows, path).value
    ensures forall j :: k < j < |rows| ==> rows[j].path != path
    decreases |rows|
  {
    var m := |rows| - 1;
    if rows[m].path == path {
      k := m;
    } else {
      k := LatestIsLast(rows[..m], path);
      assert rows[..m][k] == rows[k];
      assert forall j :: k < j < m ==> rows[..m][j] == rows[j];
    }
  }

  function GetDB(rows: seq<Row>, path: string): Record
  {
    match Latest(rows, path)
      case None => NoRecord
      case Some(r) => Record(r.md5, r.atime, r.mtime, r.ctime, r.size)
  }

  // ---------------------------------------------------------------------------
  // Rehashing
  // ---------------------------------------------------------------------------

  datatype Action = Skip | Insert(md5: string, fs: FStat)

  /**
   * The per-file rule of `hashThreads`, given the stat data, the record
   * and the hash `computeHash` gives (consulted only where the loop calls
   * it): skip an unstattable file; insert a file with no record whatever
   * its hash; skip a file whose mtime, ctime and size match (the access
   * time is not compared); otherwise insert only a nonempty hash that
   * differs from the stored one.
   */
  function Decide(fs: FStat, rec: Record, hash: string): (a: Action)
    ensures a.Insert? ==> a == Insert(hash, fs)
    ensures a.Insert? <==> (fs.atime != 0 && (rec.NoRecord? ||
      (!(fs.mtime == rec.mtime && fs.ctime == rec.ctime && fs.size == rec.size) && hash != "" && hash != rec.md5)))
  {
    if fs.atime == 0 then Skip
    else if rec.NoRecord? then Insert(hash, fs)
    else if fs.mtime == rec.mtime && fs.ctime == rec.ctime && fs.size == rec.size then Skip
    else if hash == "" || hash == rec.md5 then Skip
    else Insert(hash, fs)
  }

  /** The rows after the rule for one file. */
  function Step(rows: seq<Row>, path: string, stat: Option<FStat>, hash: string): (r: seq<Row>)
    ensures rows <= r && |r| <= |rows| + 1
  {
    match Decide(GetFStat(stat), GetDB(rows, path), hash)
      case Skip => rows
      case Insert(h, fs) => rows + [Row(path, h, fs.atime, fs.mtime, fs.ctime, fs.size)]
  }

  /** The rows after the rule for each file of `paths` from position `k` on, in turn. */
  function Processed(rows: seq<Row>, paths: seq<string>, stats: seq<Option<FStat>>, hashes: seq<string>, k: nat): (r: seq<Row>)
    requires |stats| == |paths| == |hashes|
    ensures rows <= r
    decreases |paths| - k
  {
    if k >= |paths| then rows else Processed(Step(rows, paths[k], stats[k], hashes[k]), paths, stats, hashes, k + 1)
  }

  /** A path that has a row keeps one when rows are appended. */
  lemma LatestKept(rows: seq<Row>, more: seq<Row>, path: string)
    requires Latest(rows, path).Some?
    ensures Latest(rows + more, path).Some?
  {
    var k := LatestIsLast(rows, path);
    assert (rows + more)[k].path == path;
    LatestNone(rows + more, path);
  }

  /** A path that has a record keeps one when the table grows. */
  lemma RecordKept(rows: seq<Row>, grown: seq<Row>, path: string)
    requires rows <= grown && GetDB(rows, path).Record?
    ensures GetDB(grown, path).Record?
  {
    PrefixRest(rows, grown);
    LatestKept(rows, grown[|rows|..], path);
  }

  /** A file that could be statted has a record after the rule for it. */
  lemma StepRecords(rows: seq<Row>, path: string, stat: Option<FStat>, hash: string)
    requires GetFStat(stat).atime != 0
    ensures GetDB(Step(rows, path, stat, hash), path).Record?
  {
    var next := Step(rows, path, stat, hash);
    if Decide(GetFStat(stat), GetDB(rows, path), hash).Insert? {
      assert next[|next| - 1].path == path;
    } else {
      assert next == rows && GetDB(rows, path).Record?;
    }
  }

  /** After a worker's pass, every file of its share that could be statted has a record. */
  lemma {:induction false} ProcessedRecordsAll(rows: seq<Row>, paths: seq<string>, stats: seq<Option<FStat>>, hashes: seq<string>, k: nat, j: nat)
    requires |stats| == |paths| == |hashes| && k <= j < |paths| && GetFStat(stats[j]).atime != 0
    ensures GetDB(Processed(rows, paths, stats, hashes, k), paths[j]).Record?
    decreases |paths| - k
  {
    var next := Step(rows, paths[k], stats[k], hashes[k]);
    ProcessedStep(rows, paths, stats, hashes, k);
    if k == j {
      StepRecords(rows, paths[j], stats[j], hashes[j]);
      RecordKept(next, Processed(next, paths, stats, hashes, k + 1), paths[j]);
    } else {
      ProcessedRecordsAll(next, paths, stats, hashes, k + 1, j);
    }
  }

  /** The paths of some rows, in order. */
  function PathsOf(rows: seq<Row>): (ps: seq<string>)
    ensures |ps| == |rows|
  {
    if rows == [] then [] else PathsOf(rows[..|rows| - 1]) + [rows[|rows| - 1].path]
  }

  lemma {:induction false} PathsOfAppend(a: seq<Row>, b: seq<Row>)
    ensures PathsOf(a + b) == PathsOf(a) + PathsOf(b)
    decreases |b|
  {
    if b != [] {
      assert (a + b)[..|a + b| - 1] == a + b[..|b| - 1];
      PathsOfAppend(a, b[..|b| - 1]);
    } else {
      assert a + b == a;
    }
  }

  lemma ProcessedStep(rows: seq<Row>, paths: seq<string>, stats: seq<Option<FStat>>, hashes: seq<string>, k: nat)
    requires |stats| == |paths| == |hashes| && k < |paths|
    ensures Processed(rows, paths, stats, hashes, k) == Processed(Step(rows, paths[k], stats[k], hashes[k]), paths, stats, hashes, k + 1)
  {
  }

  lemma PrefixRest<T>(a: seq<T>, b: seq<T>)
    requires a <= b
    ensures b == a + b[|a|..]
  {
    assert b[..|a|] == a;
  }

  lemma SuffixSplit<T>(a: seq<T>, b: seq<T>, c: seq<T>)
    requires a <= b <= c
    ensures c[|a|..] == b[|a|..] + c[|b|..]
  {
    assert b == c[..|b|];
  }

  /** Rows and queued paths appended in two steps are appended in one. */
  lemma Appended(rows0: seq<Row>, before: seq<Row>, after: seq<Row>, u0: seq<string>, ub: seq<string>, ua: seq<string>)
    requires rows0 <= before <= after
    requires ub == u0 + PathsOf(before[|rows0|..]) && ua == ub + PathsOf(after[|before|..])
    ensures ua == u0 + PathsOf(after[|rows0|..])
  {
    SuffixSplit(rows0, before, after);
    PathsOfAppend(before[|rows0|..], after[|before|..]);
  }

  /** One turn of the loop of `hashThreads` keeps its invariant. */
  lemma HashStep(rows0: seq<Row>, before: seq<Row>, after: seq<Row>, u0: seq<string>, ub: seq<string>, ua: seq<string>,
                 paths: seq<string>, stats: seq<Option<FStat>>, hashes: seq<string>, k: nat)
    requires |stats| == |paths| == |hashes| && k < |paths|
    requires Processed(before, paths, stats, hashes, k) == Processed(rows0, paths, stats, hashes, 0)
    requires rows0 <= before && ub == u0 + PathsOf(before[|rows0|..])
    requires after == Step(before, paths[k], stats[k], hashes[k]) && ua == ub + PathsOf(after[|before|..])
    ensures Processed(after, paths, stats, hashes, k + 1) == Processed(rows0, paths, stats, hashes, 0)
    ensures rows0 <= after && ua == u0 + PathsOf(after[|rows0|..])
  {
    ProcessedStep(before, paths, stats, hashes, k);
    Appended(rows0, before, after, u0, ub, ua);
  }

  /** The media table and the queue of updated paths (`tqueue`). */
  class MediaDb {
    var rows: seq<Row>
    var updated: seq<string>

    constructor ()
      ensures rows == [] && updated == []
    {
      rows := [];
      updated := [];
    }

    /** `insertDB`: one more row, and its path queued as updated. */
    method InsertRow(path: string, fhash: string, atime: int, mtime: int, ctime: int, size: int)
      modifies this
      ensures rows == old(rows) + [Row(path, fhash, atime, mtime, ctime, size)]
      ensures updated == old(updated) + [path]
      ensures rows[|old(rows)|..] == [Row(path, fhash, atime, mtime, ctime, size)]
    {
      rows := rows + [Row(path, fhash, atime, mtime, ctime, size)];
      updated := updated + [path];
    }

    /** The body of the loop of `hashThreads` for one file. */
    method HashFile(fullpath: string, stat: Option<FStat>, hash: string)
      modifies this
      ensures rows == Step(old(rows), fullpath, stat, hash)
      ensures updated == old(updated) + PathsOf(rows[|old(rows)|..])
    {
      var fstat := GetFStat(stat);
      if fstat.atime != 0 {
        var rec := GetDB(rows, fullpath);
        if rec.NoRecord? {
          InsertRow(fullpath, hash, fstat.atime, fstat.mtime, fstat.ctime, fstat.size);
        } else if !(fstat.mtime == rec.mtime && fstat.ctime == rec.ctime && fstat.size == rec.size) {
          var fhash := hash;
          if fhash != "" && fhash != rec.md5 {
            InsertRow(fullpath, fhash, fstat.atime, fstat.mtime, fstat.ctime, fstat.size);
          }
        }
      }
    }

    /**
     * `hashThreads`: the rule for each file of a worker's share in turn;
     * `stats[k]` and `hashes[k]` are what `os.stat` and `computeHash` give
     * for `paths[k]`.  A path is queued exactly when a row is inserted.
     */
    method HashThreads(paths: seq<string>, stats: seq<Option<FStat>>, hashes: seq<string>)
      requires |stats| == |paths| == |hashes|
      modifies this
      ensures rows == Processed(old(rows), paths, stats, hashes, 0)
      ensures old(rows) <= rows && updated == old(updated) + PathsOf(rows[|old(rows)|..])
    {
      var k := 0;
      ghost var rows0, updated0 := rows, updated;
      while k < |paths|
        invariant k <= |paths|
        invariant Processed(rows, paths, stats, hashes, k) == Processed(rows0, paths, stats, hashes, 0)
        invariant rows0 <= rows && updated == updated0 + PathsOf(rows[|rows0|..])
      {
        ghost var before, beforeUpdated := rows, updated;
        HashFile(paths[k], stats[k], hashes[k]);
        HashStep(rows0, before, rows, updated0, beforeUpdated, updated, paths, stats, hashes, k);
        k := k + 1;
      }
    }
  }
}
