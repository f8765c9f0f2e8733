/** lib/types.ts: the record every chart consumes, and its ordering by time. */
module DataPoints {
  import opened JsDates
  import opened Records

  /** A record with a valid `Date`, its numeric `value`, and the row's other
      properties. */
  datatype DataPoint = DataPoint(timestamp: Instant, value: real, fields: Row)

  function TimesOf(s: seq<DataPoint>): (ts: seq<int>)
    ensures |ts| == |s| && forall i :: 0 <= i < |s| ==> ts[i] == s[i].timestamp
  {
    seq(|s|, i requires 0 <= i < |s| => s[i].timestamp)
  }

  function ValuesOf(s: seq<DataPoint>): (vs: seq<real>)
    ensures |vs| == |s| && forall i :: 0 <= i < |s| ==> vs[i] == s[i].value
  {
    seq(|s|, i requires 0 <= i < |s| => s[i].value)
  }

  predicate SortedByTime(s: seq<DataPoint>) {
    forall i, j :: 0 <= i < j < |s| ==> s[i].timestamp <= s[j].timestamp
  }

  /** Inserts `p` after every element not later than it, so equal timestamps
      keep their relative order. */
  function InsertByTime(s: seq<DataPoint>, p: DataPoint): (r: seq<DataPoint>)
    ensures |r| == |s| + 1
  {
    if s == [] || s[|s| - 1].timestamp <= p.timestamp then s + [p]
    else InsertByTime(s[..|s| - 1], p) + [s[|s| - 1]]
  }

  /** Insertion adds `p` and loses nothing. */
  lemma {:induction false} InsertByTimeMultiset(s: seq<DataPoint>, p: DataPoint)
    ensures multiset(InsertByTime(s, p)) == multiset(s) + multiset{p}
    decreases |s|
  {
    if s != [] && s[|s| - 1].timestamp > p.timestamp {
      var init, last := s[..|s| - 1], s[|s| - 1];
      assert s == init + [last];
      InsertByTimeMultiset(init, p);
    }
  }

  /** Insertion into a time-ordered list keeps it ordered. */
  lemma {:induction false} InsertByTimeSorted(s: seq<DataPoint>, p: DataPoint)
    requires SortedByTime(s)
    ensures SortedByTime(InsertByTime(s, p))
    decreases |s|
  {
    if s != [] && s[|s| - 1].timestamp > p.timestamp {
      var init, last := s[..|s| - 1], s[|s| - 1];
      InsertByTimeSorted(init, p);
      var rest := InsertByTime(init, p);
      InsertByTimeMultiset(init, p);
      forall k | 0 <= k < |rest| ensures rest[k].timestamp <= last.timestamp {
        assert rest[k] in multiset(rest);
        if rest[k] != p {
          assert rest[k] in multiset(init);
          var m :| 0 <= m < |init| && init[m] == rest[k];
        }
      }
    }
  }

  /** `[...s].sort((a, b) => a.timestamp.getTime() - b.timestamp.getTime())`.
      The engine's sort is stable, and so is this insertion sort
      (`SortByTimeStable`), so the two arrange equal timestamps the same way. */
  function SortByTime(s: seq<DataPoint>): (r: seq<DataPoint>)
    ensures SortedByTime(r) && multiset(r) == multiset(s) && |r| == |s|
  {
    if s == [] then []
    else
      var init, last := s[..|s| - 1], s[|s| - 1];
      assert s == init + [last];
      InsertByTimeSorted(SortByTime(init), last);
      InsertByTimeMultiset(SortByTime(init), last);
      InsertByTime(SortByTime(init), last)
  }

  /** The points stamped `t`, in list order. */
  function AtTime(s: seq<DataPoint>, t: int): seq<DataPoint> {
    if s == [] then []
    else AtTime(s[..|s| - 1], t) + (if s[|s| - 1].timestamp == t then [s[|s| - 1]] else [])
  }

  lemma {:induction false} AtTimeConcat(a: seq<DataPoint>, b: seq<DataPoint>, t: int)
    ensures AtTime(a + b, t) == AtTime(a, t) + AtTime(b, t)
    decreases |b|
  {
    if b == [] {
      assert a + b == a;
    } else {
      var init := b[..|b| - 1];
      assert (a + b)[..|a + b| - 1] == a + init;
      AtTimeConcat(a, init, t);
    }
  }

  /** Insertion puts `p` after the points already stamped with its time, and
      leaves the points of every other time in their order. */
  lemma {:induction false} InsertByTimeStable(s: seq<DataPoint>, p: DataPoint, t: int)
    ensures AtTime(InsertByTime(s, p), t) == AtTime(s, t) + (if p.timestamp == t then [p] else [])
    decreases |s|
  {
    if s == [] || s[|s| - 1].timestamp <= p.timestamp {
      AtTimeConcat(s, [p], t);
    } else {
      var init, last := s[..|s| - 1], s[|s| - 1];
      InsertByTimeStable(init, p, t);
      AtTimeConcat(InsertByTime(init, p), [last], t);
    }
  }

  /** The sort is stable: the points sharing a timestamp come out in the order
      they went in. */
  lemma {:induction false} SortByTimeStable(s: seq<DataPoint>, t: int)
    ensures AtTime(SortByTime(s), t) == AtTime(s, t)
    decreases |s|
  {
    if s != [] {
      var init, last := s[..|s| - 1], s[|s| - 1];
      SortByTimeStable(init, t);
      InsertByTimeStable(SortByTime(init), last, t);
    }
  }
}
