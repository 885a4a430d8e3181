/**
 * The statistics store of web_stats.py: for one host, a map from a kind of
 * statistic ("cpu", "memory", ...) to a time series, itself a map from a
 * whole-second timestamp to the value sampled then.  Values are opaque (a
 * type parameter).  The clock is a parameter `now`; polling, pickling and
 * plotting are not modelled, except the integer rule by which the plots
 * scale a virtual-memory size.
 */
module WebStats {
  import opened Common
  import opened PyText

  type Series<V> = map<int, V>
  type Store<V> = map<string, Series<V>>

  /** How long `delOldVals` keeps samples by default: eight hours. */
  const DEFAULT_KEEP: int := 28800

  /** The kinds `process_data` records, in the order it records them. */
  const LOG_TYPES: seq<string> := ["cpu", "process_counts", "load_avg", "memory", "vm"]

  /** One `[value, time]` pair of `retVals`. */
  datatype Sample<V> = Sample(value: V, time: int)

  /** The series of a kind, empty when the kind is unknown. */
  function SeriesOf<V>(d: Store<V>, kind: string): Series<V>
  {
    if kind in d then d[kind] else map[]
  }

  /** `addType` on a store value. */
  function WithType<V>(d: Store<V>, kind: string): (r: Store<V>)
    ensures kind in r && r.Keys == d.Keys + {kind}
    ensures forall k :: k in d ==> r[k] == d[k]
    ensures kind !in d ==> r[kind] == map[]
  {
    if kind in d then d else d[kind := map[]]
  }

  /** Adding a kind twice is adding it once. */
  lemma WithTypeIdempotent<V>(d: Store<V>, kind: string)
    ensures WithType(WithType(d, kind), kind) == WithType(d, kind)
  {
  }

  /** `delOldVals` as intended: every sample strictly older than `before` goes, every other stays. */
  function Pruned<V>(d: Store<V>, before: int): (r: Store<V>)
    ensures r.Keys == d.Keys
  {
    map kind | kind in d :: map t | t in d[kind] && t >= before :: d[kind][t]
  }

  /** A sample survives pruning exactly when it is not older than the bound, and keeps its value. */
  lemma PrunedKeeps<V>(d: Store<V>, before: int, kind: string, t: int)
    requires kind in d
    ensures var r := Pruned(d, before);
      && (t in r[kind] <==> t in d[kind] && t >= before)
      && (t in r[kind] ==> r[kind][t] == d[kind][t])
  {
  }

  /** Pruning twice with the same bound is pruning once. */
  lemma PrunedIdempotent<V>(d: Store<V>, before: int)
    ensures Pruned(Pruned(d, before), before) == Pruned(d, before)
  {
    var p := Pruned(d, before);
    forall kind | kind in d
      ensures Pruned(p, before)[kind] == p[kind]
    {
      assert Pruned(p, before)[kind].Keys == p[kind].Keys;
    }
  }

  /**
   * `delOldVals` as written deletes from the dict it is iterating over;
   * under Python 3 the iteration step after a deletion raises
   * `RuntimeError`, so the call raises whenever some sample is older than
   * the bound.
   */
  predicate DelOldValsRaises<V>(d: Store<V>, before: int)
  {
    exists kind, t :: kind in d && t in d[kind] && t < before
  }

  /** As written, `delOldVals` returns only when pruning would remove nothing. */
  lemma DelOldValsReturnsOnlyWhenIdle<V>(d: Store<V>, before: int)
    ensures !DelOldValsRaises(d, before) <==> Pruned(d, before) == d
  {
    if !DelOldValsRaises(d, before) {
      forall kind | kind in d
        ensures Pruned(d, before)[kind] == d[kind]
      {
        assert Pruned(d, before)[kind].Keys == d[kind].Keys;
      }
    } else {
      var kind, t :| kind in d && t in d[kind] && t < before;
      assert t !in Pruned(d, before)[kind];
    }
  }

  /** The least element of a finite non-empty set of timestamps. */
  lemma {:induction false} HasLeast(s: set<int>)
    requires s != {}
    ensures exists k :: k in s && forall j :: j in s ==> k <= j
    decreases |s|
  {
    if forall y :: y !in s { assert false; }
    var x :| x in s;
    var rest := s - {x};
    if rest == {} {
      forall j | j in s
        ensures x <= j
      {
        assert j !in rest;
      }
    } else {
      HasLeast(rest);
      var k :| k in rest && forall j :: j in rest ==> k <= j;
      var m := if x < k then x else k;
      forall j | j in s
        ensures m <= j
      {
        if j != x {
          assert j in rest;
        }
      }
      assert m in s;
    }
  }

  /** The samples of a series, oldest first: the order `retVals` sorts them into. */
  ghost function Ascending<V>(m: Series<V>): seq<Sample<V>>
    decreases |m.Keys|
  {
    if m == map[] then []
    else
      HasLeast(m.Keys);
      var k :| k in m && forall j :: j in m ==> k <= j;
      assert |(m - {k}).Keys| < |m.Keys| by { assert m.Keys == (m - {k}).Keys + {k}; }
      [Sample(m[k], k)] + Ascending(m - {k})
  }

  /** The oldest sample comes first. */
  lemma AscendingFirst<V>(m: Series<V>, t: int)
    requires t in m && forall j :: j in m ==> t <= j
    ensures Ascending(m) == [Sample(m[t], t)] + Ascending(m - {t})
  {
  }

  /** Every listed sample is a sample of the series, with its value. */
  lemma {:induction false} AscendingFromSeries<V>(m: Series<V>)
    ensures forall i :: 0 <= i < |Ascending(m)| ==> Ascending(m)[i].time in m && Ascending(m)[i].value == m[Ascending(m)[i].time]
    decreases |m.Keys|
  {
    if m != map[] {
      HasLeast(m.Keys);
      var k :| k in m && forall j :: j in m ==> k <= j;
      AscendingFirst(m, k);
      var rest := m - {k};
      assert m.Keys == rest.Keys + {k};
      AscendingFromSeries(rest);
      var r, tail := Ascending(m), Ascending(rest);
      forall i | 0 <= i < |r|
        ensures r[i].time in m && r[i].value == m[r[i].time]
      {
        if i > 0 {
          assert r[i] == tail[i - 1];
        }
      }
    }
  }

  /** Every sample of the series is listed. */
  lemma {:induction false} AscendingCovers<V>(m: Series<V>)
    ensures forall t :: t in m ==> exists i :: 0 <= i < |Ascending(m)| && Ascending(m)[i].time == t
    decreases |m.Keys|
  {
    if m != map[] {
      HasLeast(m.Keys);
      var k :| k in m && forall j :: j in m ==> k <= j;
      AscendingFirst(m, k);
      var rest := m - {k};
      assert m.Keys == rest.Keys + {k};
      AscendingCovers(rest);
      var r, tail := Ascending(m), Ascending(rest);
      forall t | t in m
        ensures exists i :: 0 <= i < |r| && r[i].time == t
      {
        if t == k {
          assert r[0].time == t;
        } else {
          assert t in rest;
          var i :| 0 <= i < |tail| && tail[i].time == t;
          assert r[i + 1] == tail[i];
        }
      }
    }
  }

  /** The listed times increase strictly, so no sample is listed twice. */
  lemma {:induction false} AscendingIncreasing<V>(m: Series<V>)
    ensures forall i, j :: 0 <= i < j < |Ascending(m)| ==> Ascending(m)[i].time < Ascending(m)[j].time
    decreases |m.Keys|
  {
    if m != map[] {
      HasLeast(m.Keys);
      var k :| k in m && forall j :: j in m ==> k <= j;
      AscendingFirst(m, k);
      var rest := m - {k};
      assert m.Keys == rest.Keys + {k};
      AscendingIncreasing(rest);
      AscendingFromSeries(rest);
      var r, tail := Ascending(m), Ascending(rest);
      forall i, j | 0 <= i < j < |r|
        ensures r[i].time < r[j].time
      {
        assert r[j] == tail[j - 1];
        if i > 0 {
          assert r[i] == tail[i - 1];
        } else {
          assert tail[j - 1].time in rest;
        }
      }
    }
  }

  /** The value of `vsize` in the plots: the number before the unit letter, in megabytes. */
  function ScaleVsize(text: string): Option<int>
  {
    if text == [] then None
    else
      match Int(text[..|text| - 1])
      case None => None
      case Some(vs) =>
        var scale := LowerChar(text[|text| - 1]);
        Some(if scale == 't' then vs * (1024 * 1024) else if scale == 'g' then vs * 1024 else vs)
  }

  /** A size written as `"%d"` and a unit letter scales by the unit: terabytes, gigabytes or as is. */
  lemma ScaleVsizeUnits(n: int, unit: char)
    ensures ScaleVsize(FormatInt(n) + [unit]) == Some(
      if unit in {'t', 'T'} then n * 1048576 else if unit in {'g', 'G'} then n * 1024 else n)
  {
    var text := FormatInt(n) + [unit];
    assert text[..|text| - 1] == FormatInt(n);
    BothConventionsKeepNumerals();
    FormatIntRoundTrip(n, IsSpace);
  }

  /** The samples of one host. */
  class Stats<V> {
    var data: Store<V>
    const hostname: string

    constructor (name: string)
      ensures data == map[] && hostname == name
    {
      data, hostname := map[], name;
    }

    /** `addType`: a new kind gets an empty series; an existing one is left alone. */
    method AddType(kind: string)
      modifies this`data
      ensures data == WithType(old(data), kind)
    {
      if kind !in data {
        data := data[kind := map[]];
      }
    }

    /**
     * `delOldVals`: samples strictly older than `secsToKeep` seconds before
     * `now` are removed.
     */
    method DelOldVals(now: int, secsToKeep: int)
      modifies this`data
      ensures data == Pruned(old(data), now - secsToKeep)
    {
      var before := now - secsToKeep;
      data := map kind | kind in data :: map t | t in data[kind] && t >= before :: data[kind][t];
    }

    /** `addVal`: the kind is added if needed and the sample stored at `now`, replacing one taken in the same second. */
    method AddVal(kind: string, value: V, now: int)
      modifies this`data
      ensures data == old(data)[kind := SeriesOf(old(data), kind)[now := value]]
    {
      AddType(kind);
      data := data[kind := data[kind][now := value]];
    }

    /** `retVals`: every sample of the kind, oldest first; none for an unknown kind. */
    method RetVals(kind: string) returns (r: seq<Sample<V>>)
      ensures r == Ascending(SeriesOf(data, kind))
    {
      r := [];
      if kind !in data {
        return;
      }
      var rest := data[kind];
      while rest != map[]
        invariant r + Ascending(rest) == Ascending(data[kind])
        decreases |rest.Keys|
      {
        HasLeast(rest.Keys);
        var t :| t in rest && forall j :: j in rest ==> t <= j;
        AscendingFirst(rest, t);
        r := r + [Sample(rest[t], t)];
        rest := rest - {t};
      }
    }

    /** `retTypes`: the stored kinds, each once. */
    method RetTypes() returns (r: seq<string>)
      ensures forall k :: k in data <==> k in r
      ensures forall i, j :: 0 <= i < j < |r| ==> r[i] != r[j]
    {
      r := [];
      var rest := data.Keys;
      while rest != {}
        invariant rest <= data.Keys
        invariant forall k :: k in data ==> (k in r <==> k !in rest)
        invariant forall k :: k in r ==> k in data
        invariant forall i, j :: 0 <= i < j < |r| ==> r[i] != r[j]
        decreases |rest|
      {
        if forall y :: y !in rest { assert false; }
        var k :| k in rest;
        r := r + [k];
        rest := rest - {k};
      }
    }

    /**
     * `process_data`: old samples are pruned first, then one sample of each
     * of the five kinds is stored at `now`.  A kind missing from the polled
     * record raises `KeyError`, leaving the earlier kinds stored.
     */
    method ProcessData(polled: map<string, V>, now: int) returns (complete: bool)
      modifies this`data
      ensures complete <==> forall k :: k in LOG_TYPES ==> k in polled
      ensures data == Recorded(Pruned(old(data), now - DEFAULT_KEEP), polled, LOG_TYPES, now)
    {
      DelOldVals(now, DEFAULT_KEEP);
      ghost var pruned := data;
      var i := 0;
      while i < |LOG_TYPES|
        invariant 0 <= i <= |LOG_TYPES|
        invariant forall k :: k in LOG_TYPES[..i] ==> k in polled
        invariant data == Recorded(pruned, polled, LOG_TYPES[..i], now)
      {
        var name := LOG_TYPES[i];
        if name !in polled {
          RecordedStops(pruned, polled, LOG_TYPES, i, now);
          return false;
        }
        AddVal(name, polled[name], now);
        RecordedStep(pruned, polled, LOG_TYPES, i, now);
        i := i + 1;
      }
      assert LOG_TYPES[..i] == LOG_TYPES;
      complete := true;
    }
  }

  /** The store after recording `kinds` in order from a polled record, stopping at the first missing one. */
  function Recorded<V>(d: Store<V>, polled: map<string, V>, kinds: seq<string>, now: int): Store<V>
    decreases |kinds|
  {
    if kinds == [] || kinds[0] !in polled then d
    else Recorded(d[kinds[0] := SeriesOf(d, kinds[0])[now := polled[kinds[0]]]], polled, kinds[1..], now)
  }

  lemma {:induction false} RecordedStep<V>(d: Store<V>, polled: map<string, V>, kinds: seq<string>, i: nat, now: int)
    requires i < |kinds| && forall k :: k in kinds[..i] ==> k in polled
    ensures var prev := Recorded(d, polled, kinds[..i], now);
      Recorded(d, polled, kinds[..i + 1], now) ==
        (if kinds[i] in polled then prev[kinds[i] := SeriesOf(prev, kinds[i])[now := polled[kinds[i]]]] else prev)
    decreases i
  {
    if i > 0 {
      var d1 := d[kinds[0] := SeriesOf(d, kinds[0])[now := polled[kinds[0]]]];
      assert kinds[..i + 1][1..] == kinds[1..][..i];
      assert kinds[..i][1..] == kinds[1..][..i - 1];
      assert kinds[0] == kinds[..i][0];
      forall k | k in kinds[1..][..i - 1]
        ensures k in polled
      {
        assert k in kinds[..i];
      }
      RecordedStep(d1, polled, kinds[1..], i - 1, now);
    }
  }

  lemma RecordedStops<V>(d: Store<V>, polled: map<string, V>, kinds: seq<string>, i: nat, now: int)
    requires i < |kinds| && kinds[i] !in polled && forall k :: k in kinds[..i] ==> k in polled
    ensures Recorded(d, polled, kinds[..i], now) == Recorded(d, polled, kinds, now)
    decreases i
  {
    if i > 0 {
      var d1 := d[kinds[0] := SeriesOf(d, kinds[0])[now := polled[kinds[0]]]];
      assert kinds[..i][1..] == kinds[1..][..i - 1];
      assert kinds[0] == kinds[..i][0];
      forall k | k in kinds[1..][..i - 1]
        ensures k in polled
      {
        assert k in kinds[..i];
      }
      RecordedStops(d1, polled, kinds[1..], i - 1, now);
    } else {
      assert kinds[0] !in polled;
    }
  }

  /**
   * A complete poll adds exactly one sample at `now` to each of the five
   * kinds, taken from the record, and touches no other kind.
   */
  lemma {:induction false} RecordedComplete<V>(d: Store<V>, polled: map<string, V>, kinds: seq<string>, now: int)
    requires forall k :: k in kinds ==> k in polled
    requires forall i, j :: 0 <= i < j < |kinds| ==> kinds[i] != kinds[j]
    ensures Recorded(d, polled, kinds, now).Keys == d.Keys + (set k | k in kinds)
    ensures forall k :: k in kinds ==> k in Recorded(d, polled, kinds, now) && Recorded(d, polled, kinds, now)[k] == SeriesOf(d, k)[now := polled[k]]
    ensures forall k :: k in d && k !in kinds ==> Recorded(d, polled, kinds, now)[k] == d[k]
    decreases |kinds|
  {
    if kinds != [] {
      var d1 := d[kinds[0] := SeriesOf(d, kinds[0])[now := polled[kinds[0]]]];
      RecordedComplete(d1, polled, kinds[1..], now);
      forall k | k in kinds[1..]
        ensures SeriesOf(d1, k) == SeriesOf(d, k)
      {
        var j :| 0 <= j < |kinds[1..]| && kinds[1..][j] == k;
        assert kinds[j + 1] == k;
      }
    }
  }
}
