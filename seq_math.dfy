/** Counting, summing and ordering over sequences: the arithmetic the charts,
    the aggregator and the statistics share. */
module SeqMath {

  // ---------------------------------------------------------------------
  // Counting
  // ---------------------------------------------------------------------

  /** How many elements of `s` satisfy `p`. */
  function CountWhere<T>(s: seq<T>, p: T -> bool): (n: nat)
    ensures n <= |s|
  {
    if s == [] then 0 else CountWhere(s[..|s| - 1], p) + (if p(s[|s| - 1]) then 1 else 0)
  }

  lemma CountWhereAppend<T>(s: seq<T>, x: T, p: T -> bool)
    ensures CountWhere(s + [x], p) == CountWhere(s, p) + (if p(x) then 1 else 0)
  {
    assert (s + [x])[..|s|] == s;
  }

  /** Occurrences of `k` in `keys`. */
  function Occ(keys: seq<int>, k: int): (n: nat)
    ensures n <= |keys|
  {
    if keys == [] then 0 else Occ(keys[..|keys| - 1], k) + (if keys[|keys| - 1] == k then 1 else 0)
  }

  lemma OccAppend(keys: seq<int>, x: int, k: int)
    ensures Occ(keys + [x], k) == Occ(keys, k) + (if x == k then 1 else 0)
  {
    assert (keys + [x])[..|keys|] == keys;
  }

  /** A key that occurs is counted at least once. */
  lemma {:induction false} OccOfElement(keys: seq<int>, i: nat)
    requires i < |keys|
    ensures Occ(keys, keys[i]) >= 1
    decreases |keys|
  {
    if i < |keys| - 1 {
      OccOfElement(keys[..|keys| - 1], i);
    }
  }

  predicate InRange(keys: seq<int>, n: nat) {
    forall i :: 0 <= i < |keys| ==> 0 <= keys[i] < n
  }

  /** A key that occurs has a position. */
  lemma {:induction false} OccWitness(keys: seq<int>, k: int) returns (i: nat)
    requires Occ(keys, k) > 0
    ensures i < |keys| && keys[i] == k
    decreases |keys|
  {
    if keys[|keys| - 1] == k {
      i := |keys| - 1;
    } else {
      i := OccWitness(keys[..|keys| - 1], k);
    }
  }

  /** The histogram of `keys` over buckets 0..n-1. */
  function Hist(keys: seq<int>, n: nat): (h: seq<nat>)
    ensures |h| == n
    ensures forall k :: 0 <= k < n ==> h[k] == Occ(keys, k)
  {
    seq(n, k requires 0 <= k < n => Occ(keys, k))
  }

  function SumNat(s: seq<nat>): nat {
    if s == [] then 0 else SumNat(s[..|s| - 1]) + s[|s| - 1]
  }

  /** No element exceeds the sum. */
  lemma {:induction false} SumNatBound(s: seq<nat>, k: nat)
    requires k < |s|
    ensures s[k] <= SumNat(s)
    decreases |s|
  {
    if k < |s| - 1 {
      SumNatBound(s[..|s| - 1], k);
    }
  }

  lemma SumNatAppend(a: seq<nat>, b: seq<nat>)
    ensures SumNat(a + b) == SumNat(a) + SumNat(b)
    decreases |b|
  {
    if b == [] {
      assert a + b == a;
    } else {
      assert (a + b)[..|a + b| - 1] == a + b[..|b| - 1];
      SumNatAppend(a, b[..|b| - 1]);
    }
  }

  /** Adding one key raises exactly its bucket by one. */
  lemma HistAppend(keys: seq<int>, x: int, n: nat)
    requires 0 <= x < n
    ensures Hist(keys + [x], n) == Hist(keys, n)[x := Hist(keys, n)[x] + 1]
  {
    forall k | 0 <= k < n ensures Hist(keys + [x], n)[k] == Hist(keys, n)[x := Hist(keys, n)[x] + 1][k] {
      OccAppend(keys, x, k);
    }
  }

  lemma SumNatUpdate(s: seq<nat>, i: nat, v: nat)
    requires i < |s|
    ensures SumNat(s[i := v]) == SumNat(s) - s[i] + v
  {
    assert s == s[..i] + [s[i]] + s[i + 1..];
    assert s[i := v] == s[..i] + [v] + s[i + 1..];
    SumNatAppend(s[..i] + [s[i]], s[i + 1..]);
    SumNatAppend(s[..i], [s[i]]);
    SumNatAppend(s[..i] + [v], s[i + 1..]);
    SumNatAppend(s[..i], [v]);
  }

  /** Every key in range lands in exactly one bucket, so the buckets of a
      histogram add up to the number of keys. */
  lemma {:induction false} HistSum(keys: seq<int>, n: nat)
    requires InRange(keys, n)
    ensures SumNat(Hist(keys, n)) == |keys|
    decreases |keys|
  {
    if keys == [] {
      ZeroSum(Hist(keys, n));
    } else {
      var init := keys[..|keys| - 1];
      var x := keys[|keys| - 1];
      assert keys == init + [x];
      HistSum(init, n);
      HistAppend(init, x, n);
      SumNatUpdate(Hist(init, n), x, Hist(init, n)[x] + 1);
    }
  }

  lemma ZeroSum(s: seq<nat>)
    requires forall i :: 0 <= i < |s| ==> s[i] == 0
    ensures SumNat(s) == 0
  {
  }

  /** The concatenation of `f(x)` over `s`, in order. */
  function FlatMap<T, U>(s: seq<T>, f: T -> seq<U>): seq<U> {
    if s == [] then [] else FlatMap(s[..|s| - 1], f) + f(s[|s| - 1])
  }

  /** When each element contributes at most one result, the results are the
      contributions of an increasing list of positions that includes every
      contributing position. */
  lemma {:induction false} FlatMapSelect<T, U>(s: seq<T>, f: T -> seq<U>) returns (idx: seq<nat>)
    requires forall x :: |f(x)| <= 1
    ensures |idx| == |FlatMap(s, f)|
    ensures forall k, l :: 0 <= k < l < |idx| ==> idx[k] < idx[l]
    ensures forall k :: 0 <= k < |idx| ==> idx[k] < |s| && [FlatMap(s, f)[k]] == f(s[idx[k]])
    ensures forall i :: 0 <= i < |s| && f(s[i]) != [] ==> i in idx
    decreases |s|
  {
    if s == [] {
      idx := [];
    } else {
      var init := s[..|s| - 1];
      var last := s[|s| - 1];
      var prev := FlatMapSelect(init, f);
      var out := FlatMap(s, f);
      assert out == FlatMap(init, f) + f(last);
      if f(last) != [] {
        idx := prev + [|s| - 1];
      } else {
        idx := prev;
      }
      forall k | 0 <= k < |idx| ensures idx[k] < |s| && [out[k]] == f(s[idx[k]]) {
        if k < |prev| {
          assert s[prev[k]] == init[prev[k]];
          assert out[k] == FlatMap(init, f)[k];
        }
      }
      forall i | 0 <= i < |s| && f(s[i]) != [] ensures i in idx {
        if i < |init| {
          assert init[i] == s[i];
          assert i in prev;
        }
      }
    }
  }

  /** `s.filter(p)`. */
  function Filter<T>(s: seq<T>, p: T -> bool): (r: seq<T>)
    ensures |r| <= |s|
    ensures forall k :: 0 <= k < |r| ==> r[k] in s && p(r[k])
    ensures forall i :: 0 <= i < |s| && p(s[i]) ==> s[i] in r
  {
    if s == [] then []
    else Filter(s[..|s| - 1], p) + (if p(s[|s| - 1]) then [s[|s| - 1]] else [])
  }

  /** Filtering one more element adds one exactly when it passes. */
  lemma FilterLengthStep<T>(s: seq<T>, p: T -> bool)
    requires s != []
    ensures |Filter(s, p)| == |Filter(s[..|s| - 1], p)| + (if p(s[|s| - 1]) then 1 else 0)
  {
  }

  /** Filtering by a test that agrees with "the key is `k`" keeps as many
      elements as `k` occurs among the keys. */
  lemma {:induction false} FilterOcc<T>(s: seq<T>, p: T -> bool, ks: seq<int>, k: int)
    requires |ks| == |s|
    requires forall i :: 0 <= i < |s| ==> (p(s[i]) <==> ks[i] == k)
    ensures |Filter(s, p)| == Occ(ks, k)
    decreases |s|
  {
    if s != [] {
      var n := |s| - 1;
      FilterOcc(s[..n], p, ks[..n], k);
      FilterLengthStep(s, p);
    }
  }

  /** Filtering keeps everything exactly when every element passes. */
  lemma {:induction false} FilterKeepsAll<T>(s: seq<T>, p: T -> bool)
    ensures |Filter(s, p)| == |s| <==> forall i :: 0 <= i < |s| ==> p(s[i])
    decreases |s|
  {
    if s != [] {
      var init, last := s[..|s| - 1], s[|s| - 1];
      FilterKeepsAll(init, p);
      assert |Filter(s, p)| == |Filter(init, p)| + (if p(last) then 1 else 0);
      assert (forall i :: 0 <= i < |s| ==> p(s[i]))
             <==> (forall i :: 0 <= i < |init| ==> p(init[i])) && p(last);
    }
  }

  /** The kept elements are those of an increasing list of positions holding
      every element that passes: `filter` keeps order. */
  lemma {:induction false} FilterSelect<T>(s: seq<T>, p: T -> bool) returns (idx: seq<nat>)
    ensures |idx| == |Filter(s, p)|
    ensures forall k, l :: 0 <= k < l < |idx| ==> idx[k] < idx[l]
    ensures forall k :: 0 <= k < |idx| ==> idx[k] < |s| && Filter(s, p)[k] == s[idx[k]]
    ensures forall i :: 0 <= i < |s| && p(s[i]) ==> i in idx
    decreases |s|
  {
    if s == [] {
      idx := [];
    } else {
      var init := s[..|s| - 1];
      var prev := FilterSelect(init, p);
      idx := FilterSelectStep(s, p, prev);
    }
  }

  /** The step of FilterSelect: the positions kept in all but the last
      element, followed by the last position when it passes. */
  lemma FilterSelectStep<T>(s: seq<T>, p: T -> bool, prev: seq<nat>) returns (idx: seq<nat>)
    requires s != []
    requires |prev| == |Filter(s[..|s| - 1], p)|
    requires forall k, l :: 0 <= k < l < |prev| ==> prev[k] < prev[l]
    requires forall k :: 0 <= k < |prev| ==> prev[k] < |s| - 1 && Filter(s[..|s| - 1], p)[k] == s[..|s| - 1][prev[k]]
    requires forall i :: 0 <= i < |s| - 1 && p(s[..|s| - 1][i]) ==> i in prev
    ensures |idx| == |Filter(s, p)|
    ensures forall k, l :: 0 <= k < l < |idx| ==> idx[k] < idx[l]
    ensures forall k :: 0 <= k < |idx| ==> idx[k] < |s| && Filter(s, p)[k] == s[idx[k]]
    ensures forall i :: 0 <= i < |s| && p(s[i]) ==> i in idx
  {
    var init, last := s[..|s| - 1], s[|s| - 1];
    var before, out := Filter(init, p), Filter(s, p);
    idx := if p(last) then prev + [|s| - 1] else prev;
    if p(last) {
      assert out == before + [last];
    } else {
      assert out == before;
    }
    StepOrder(prev, |s| - 1, p(last));
    StepValues(s, before, out, prev, idx);
    StepCovers(s, p, prev, idx);
  }

  lemma StepCovers<T>(s: seq<T>, p: T -> bool, prev: seq<nat>, idx: seq<nat>)
    requires s != []
    requires forall i :: 0 <= i < |s| - 1 && p(s[..|s| - 1][i]) ==> i in prev
    requires idx == if p(s[|s| - 1]) then prev + [|s| - 1] else prev
    ensures forall i :: 0 <= i < |s| && p(s[i]) ==> i in idx
  {
    forall i | 0 <= i < |s| && p(s[i]) ensures i in idx {
      if i < |s| - 1 {
        assert s[..|s| - 1][i] == s[i];
      }
    }
  }

  lemma StepOrder(prev: seq<nat>, n: nat, keep: bool)
    requires forall k, l :: 0 <= k < l < |prev| ==> prev[k] < prev[l]
    requires forall k :: 0 <= k < |prev| ==> prev[k] < n
    ensures var idx := if keep then prev + [n] else prev;
            forall k, l :: 0 <= k < l < |idx| ==> idx[k] < idx[l]
  {
  }

  lemma StepValues<T>(s: seq<T>, before: seq<T>, out: seq<T>, prev: seq<nat>, idx: seq<nat>)
    requires s != [] && |prev| == |before|
    requires forall k :: 0 <= k < |prev| ==> prev[k] < |s| - 1 && before[k] == s[..|s| - 1][prev[k]]
    requires (out == before && idx == prev) || (out == before + [s[|s| - 1]] && idx == prev + [|s| - 1])
    ensures |idx| == |out|
    ensures forall k :: 0 <= k < |idx| ==> idx[k] < |s| && out[k] == s[idx[k]]
  {
    forall k | 0 <= k < |idx| ensures idx[k] < |s| && out[k] == s[idx[k]] {
      if k < |prev| {
        assert s[prev[k]] == s[..|s| - 1][prev[k]];
      }
    }
  }

  // ---------------------------------------------------------------------
  // Integer division by a positive divisor (floor division)
  // ---------------------------------------------------------------------

  lemma MulAtLeast(d: int, k: int)
    requires d > 0 && k >= 1
    ensures d * k >= d
    decreases k
  {
    if k > 1 {
      MulAtLeast(d, k - 1);
      assert d * k == d * (k - 1) + d;
    }
  }

  lemma DivMonotone(x: int, y: int, d: int)
    requires x <= y && d > 0
    ensures x / d <= y / d
  {
    var qx, qy := x / d, y / d;
    assert x == d * qx + x % d;
    assert y == d * qy + y % d;
    if qx > qy {
      MulAtLeast(d, qx - qy);
    }
  }

  /** The quotient is the unique `q` with `d * q <= x < d * q + d`. */
  lemma DivExact(x: int, d: int, q: int, r: int)
    requires d > 0 && 0 <= r < d && x == d * q + r
    ensures x / d == q && x % d == r
  {
    var q0 := x / d;
    assert x == d * q0 + x % d;
    if q0 > q {
      MulAtLeast(d, q0 - q);
    } else if q0 < q {
      MulAtLeast(d, q - q0);
    }
  }

  /** `Math.ceil(n / d)` for a positive divisor. */
  function CeilDiv(n: nat, d: nat): (c: nat)
    requires d > 0
    ensures d * (c - 1) < n <= d * c || (n == 0 && c == 0)
  {
    var c := (n + d - 1) / d;
    assert n + d - 1 == d * c + (n + d - 1) % d;
    c
  }

  lemma MulMonotone(d: int, a: int, b: int)
    requires d >= 0 && a <= b
    ensures d * a <= d * b
  {
    assert d * b - d * a == d * (b - a);
  }

  // ---------------------------------------------------------------------
  // Keeping every n-th element
  // ---------------------------------------------------------------------

  /** `s.filter((_, index) => index % step === 0)`. */
  function EveryNth<T>(s: seq<T>, step: nat): seq<T>
    requires step > 0
  {
    if s == [] then []
    else EveryNth(s[..|s| - 1], step) + (if (|s| - 1) % step == 0 then [s[|s| - 1]] else [])
  }

  /** Going from n-1 to n elements adds a multiple of `step` exactly when
      n-1 is one. */
  lemma CeilDivStep(n: nat, step: nat)
    requires n > 0 && step > 0
    ensures CeilDiv(n, step) == CeilDiv(n - 1, step) + (if (n - 1) % step == 0 then 1 else 0)
    ensures (n - 1) % step == 0 ==> CeilDiv(n - 1, step) * step == n - 1
  {
    var q, r := (n - 1) / step, (n - 1) % step;
    assert n - 1 == step * q + r;
    assert step * (q + 1) == step * q + step;
    if r == 0 {
      assert n - 1 + step - 1 == step * q + (step - 1);
      DivExact(n - 1 + step - 1, step, q, step - 1);
      assert n + step - 1 == step * (q + 1) + 0;
      DivExact(n + step - 1, step, q + 1, 0);
      assert CeilDiv(n - 1, step) == q && CeilDiv(n, step) == q + 1;
    } else {
      assert n - 1 + step - 1 == step * (q + 1) + (r - 1);
      DivExact(n - 1 + step - 1, step, q + 1, r - 1);
      assert n + step - 1 == step * (q + 1) + r;
      DivExact(n + step - 1, step, q + 1, r);
      assert CeilDiv(n - 1, step) == q + 1 && CeilDiv(n, step) == q + 1;
    }
  }

  /** The kept elements are those at positions 0, step, 2*step, ...: there are
      ceil(|s| / step) of them, in order, starting with the first element. */
  lemma {:induction false} EveryNthShape<T>(s: seq<T>, step: nat)
    requires step > 0
    ensures |EveryNth(s, step)| == CeilDiv(|s|, step)
    ensures forall j :: 0 <= j < |EveryNth(s, step)| ==> j * step < |s| && EveryNth(s, step)[j] == s[j * step]
    decreases |s|
  {
    if s != [] {
      var n := |s|;
      var init := s[..n - 1];
      EveryNthShape(init, step);
      CeilDivStep(n, step);
      var e, e0 := EveryNth(s, step), EveryNth(init, step);
      assert e == e0 + (if (n - 1) % step == 0 then [s[n - 1]] else []);
      forall j | 0 <= j < |e| ensures j * step < n && e[j] == s[j * step] {
        if j < |e0| {
          assert e[j] == e0[j] && init[j * step] == s[j * step];
        } else {
          assert j * step == n - 1;
        }
      }
    }
  }

  // ---------------------------------------------------------------------
  // Sums and means over reals
  // ---------------------------------------------------------------------

  function Sum(s: seq<real>): real {
    if s == [] then 0.0 else Sum(s[..|s| - 1]) + s[|s| - 1]
  }

  lemma SumAppend(s: seq<real>, x: real)
    ensures Sum(s + [x]) == Sum(s) + x
  {
    assert (s + [x])[..|s|] == s;
  }

  /** `(count / total) * 100`: a count's share of a total, in percent. */
  function Percent(count: nat, total: nat): real
    requires total > 0
  {
    (count as real / total as real) * 100.0
  }

  /** The share of each count. */
  function Percents(s: seq<nat>, total: nat): (r: seq<real>)
    requires total > 0
    ensures |r| == |s| && forall i :: 0 <= i < |s| ==> r[i] == Percent(s[i], total)
  {
    seq(|s|, i requires 0 <= i < |s| => Percent(s[i], total))
  }

  /** The shares add up to the share of the sum of the counts. */
  lemma {:induction false} SumPercents(s: seq<nat>, total: nat)
    requires total > 0
    ensures Sum(Percents(s, total)) == Percent(SumNat(s), total)
    decreases |s|
  {
    if s != [] {
      var init, last := s[..|s| - 1], s[|s| - 1];
      SumPercents(init, total);
      var r := Percents(s, total);
      PercentsPrefix(s, total);
      assert Sum(r) == Sum(r[..|s| - 1]) + r[|s| - 1];
      SumNatLast(s);
      PercentAdd(SumNat(init), last, total);
    }
  }

  lemma PercentsPrefix(s: seq<nat>, total: nat)
    requires total > 0 && s != []
    ensures Percents(s, total)[..|s| - 1] == Percents(s[..|s| - 1], total)
  {
  }

  lemma SumNatLast(s: seq<nat>)
    requires s != []
    ensures SumNat(s) == SumNat(s[..|s| - 1]) + s[|s| - 1]
  {
    var init := s[..|s| - 1];
    assert s == init + [s[|s| - 1]];
    SumNatAppend(init, [s[|s| - 1]]);
    assert SumNat([s[|s| - 1]]) == s[|s| - 1] by {
      assert [s[|s| - 1]][..0] == [];
    }
  }

  /** Shares of the same total add up. */
  lemma PercentAdd(a: nat, b: nat, total: nat)
    requires total > 0
    ensures Percent(a, total) + Percent(b, total) == Percent(a + b, total)
  {
    var t := total as real;
    assert (a as real / t) * 100.0 + (b as real / t) * 100.0 == ((a as real + b as real) / t) * 100.0;
  }

  /** A part of the total is a share between 0 and 100, positive when the
      part is. */
  lemma PercentBounds(count: nat, total: nat)
    requires 0 < total && count <= total
    ensures 0.0 <= Percent(count, total) <= 100.0
    ensures count > 0 ==> Percent(count, total) > 0.0
  {
    assert count as real / total as real <= 1.0;
  }

  /** The whole is 100 percent of itself. */
  lemma PercentOfWhole(total: nat)
    requires total > 0
    ensures Percent(total, total) == 100.0
  {
  }

  lemma {:induction false} SumConcat(s: seq<real>, t: seq<real>)
    ensures Sum(s + t) == Sum(s) + Sum(t)
    decreases |t|
  {
    if t != [] {
      var init := t[..|t| - 1];
      SumConcat(s, init);
      var st := s + t;
      assert st[..|st| - 1] == s + init;
      assert Sum(st) == Sum(s + init) + t[|t| - 1];
      assert Sum(t) == Sum(init) + t[|t| - 1];
    } else {
      assert s + t == s;
    }
  }

  /** The arithmetic mean of a non-empty sequence. */
  function Mean(s: seq<real>): real
    requires s != []
  {
    Sum(s) / (|s| as real)
  }

  /** The mean lies between the smallest and the largest element. */
  lemma {:induction false} SumBounds(s: seq<real>, lo: real, hi: real)
    requires forall i :: 0 <= i < |s| ==> lo <= s[i] <= hi
    ensures (|s| as real) * lo <= Sum(s) <= (|s| as real) * hi
    decreases |s|
  {
    if s != [] {
      SumBounds(s[..|s| - 1], lo, hi);
    }
  }

  /** The running-average update `(avg * (count - 1) + v) / count`, made
      after `count` has been incremented. */
  function RunningMean(avg: real, count: nat, x: real): real
    requires count >= 1
  {
    (avg * ((count - 1) as real) + x) / (count as real)
  }

  /** The running-average update keeps the average equal to the mean of the
      values seen. */
  lemma MeanStep(s: seq<real>, x: real, avg: real)
    requires s == [] ==> avg == 0.0
    requires s != [] ==> avg == Mean(s)
    ensures RunningMean(avg, |s| + 1, x) == Mean(s + [x])
  {
    SumAppend(s, x);
    if s != [] {
      assert avg * (|s| as real) == Sum(s);
    }
  }

  lemma MeanBounds(s: seq<real>, lo: real, hi: real)
    requires s != []
    requires forall i :: 0 <= i < |s| ==> lo <= s[i] <= hi
    ensures lo <= Mean(s) <= hi
  {
    SumBounds(s, lo, hi);
    var n := |s| as real;
    assert n * lo <= Sum(s) <= n * hi;
    assert Mean(s) * n == Sum(s);
    DivBounds(Sum(s), n, lo, hi);
  }

  lemma DivBounds(x: real, n: real, lo: real, hi: real)
    requires n > 0.0 && n * lo <= x <= n * hi
    ensures lo <= x / n <= hi
  {
  }

  // ---------------------------------------------------------------------
  // First maximum and minimum
  // ---------------------------------------------------------------------

  /** The index `reduce((a, b) => b.count > a.count ? b : a)` keeps: the first
      position holding the largest value. */
  function FirstMaxIndex(s: seq<int>): (i: nat)
    requires s != []
    ensures i < |s|
    ensures forall j :: 0 <= j < |s| ==> s[j] <= s[i]
    ensures forall j :: 0 <= j < i ==> s[j] < s[i]
  {
    if |s| == 1 then 0
    else
      var i := FirstMaxIndex(s[..|s| - 1]);
      if s[|s| - 1] > s[i] then |s| - 1 else i
  }

  /** The index `reduce((a, b) => b.count < a.count ? b : a)` keeps: the first
      position holding the smallest value. */
  function FirstMinIndex(s: seq<int>): (i: nat)
    requires s != []
    ensures i < |s|
    ensures forall j :: 0 <= j < |s| ==> s[i] <= s[j]
    ensures forall j :: 0 <= j < i ==> s[i] < s[j]
  {
    if |s| == 1 then 0
    else
      var i := FirstMinIndex(s[..|s| - 1]);
      if s[|s| - 1] < s[i] then |s| - 1 else i
  }

  /** `Math.max(...s)` (with 0 for an empty list, as `d3.max(..) || 0` gives). */
  function MaxOr0(s: seq<int>): (m: int)
    ensures s == [] ==> m == 0
    ensures s != [] ==> m in s && forall j :: 0 <= j < |s| ==> s[j] <= m
  {
    if s == [] then 0 else s[FirstMaxIndex(s)]
  }

  /** `s.indexOf(x)`: the first index holding `x`, or -1. */
  function IndexOf(s: seq<int>, x: int): (i: int)
    ensures -1 <= i < |s|
    ensures i >= 0 ==> s[i] == x && forall j :: 0 <= j < i ==> s[j] != x
    ensures i == -1 ==> x !in s
  {
    if s == [] then -1
    else if s[0] == x then 0
    else
      var j := IndexOf(s[1..], x);
      if j == -1 then -1 else j + 1
  }

  // ---------------------------------------------------------------------
  // Ascending order
  // ---------------------------------------------------------------------

  predicate SortedReal(s: seq<real>) {
    forall i, j :: 0 <= i < j < |s| ==> s[i] <= s[j]
  }

  predicate SortedInt(s: seq<int>) {
    forall i, j :: 0 <= i < j < |s| ==> s[i] <= s[j]
  }

  /** Inserting into a sorted list at the first position whose element is
      not smaller. */
  function InsertReal(s: seq<real>, x: real): (r: seq<real>)
    requires SortedReal(s)
    ensures SortedReal(r) && multiset(r) == multiset(s) + multiset{x}
  {
    if s == [] then [x]
    else if x <= s[0] then [x] + s
    else
      var rest := InsertReal(s[1..], x);
      assert s == [s[0]] + s[1..];
      ConsReal(s[0], s[1..], x, rest);
      [s[0]] + rest
  }

  /** A head no larger than the sorted tail and than the inserted value
      stays in front of the insertion's result. */
  lemma ConsReal(a: real, tail: seq<real>, x: real, rest: seq<real>)
    requires SortedReal([a] + tail) && a <= x
    requires SortedReal(rest) && multiset(rest) == multiset(tail) + multiset{x}
    ensures SortedReal([a] + rest)
  {
    forall k | 0 <= k < |rest| ensures a <= rest[k] {
      assert rest[k] in multiset(rest);
      if rest[k] != x {
        assert rest[k] in multiset(tail);
        var j :| 0 <= j < |tail| && tail[j] == rest[k];
        assert ([a] + tail)[0] == a && ([a] + tail)[j + 1] == tail[j];
      }
    }
  }

  /** The ascending arrangement of a list of numbers: `[...s].sort((a, b) => a - b)`. */
  function SortReal(s: seq<real>): (r: seq<real>)
    ensures SortedReal(r) && multiset(r) == multiset(s) && |r| == |s|
  {
    if s == [] then []
    else
      assert s == s[..|s| - 1] + [s[|s| - 1]];
      var r := InsertReal(SortReal(s[..|s| - 1]), s[|s| - 1]);
      assert |r| == |multiset(r)|;
      r
  }

  function InsertInt(s: seq<int>, x: int): (r: seq<int>)
    requires SortedInt(s)
    ensures SortedInt(r) && multiset(r) == multiset(s) + multiset{x}
  {
    if s == [] then [x]
    else if x <= s[0] then [x] + s
    else
      var rest := InsertInt(s[1..], x);
      assert s == [s[0]] + s[1..];
      ConsInt(s[0], s[1..], x, rest);
      [s[0]] + rest
  }

  /** A head no larger than the sorted tail and than the inserted value
      stays in front of the insertion's result. */
  lemma ConsInt(a: int, tail: seq<int>, x: int, rest: seq<int>)
    requires SortedInt([a] + tail) && a <= x
    requires SortedInt(rest) && multiset(rest) == multiset(tail) + multiset{x}
    ensures SortedInt([a] + rest)
  {
    forall k | 0 <= k < |rest| ensures a <= rest[k] {
      assert rest[k] in multiset(rest);
      if rest[k] != x {
        assert rest[k] in multiset(tail);
        var j :| 0 <= j < |tail| && tail[j] == rest[k];
        assert ([a] + tail)[0] == a && ([a] + tail)[j + 1] == tail[j];
      }
    }
  }

  /** `s.sort((a, b) => a - b)` for integers. */
  function SortInt(s: seq<int>): (r: seq<int>)
    ensures SortedInt(r) && multiset(r) == multiset(s) && |r| == |s|
  {
    if s == [] then []
    else
      assert s == s[..|s| - 1] + [s[|s| - 1]];
      var r := InsertInt(SortInt(s[..|s| - 1]), s[|s| - 1]);
      assert |r| == |multiset(r)|;
      r
  }

  /** The least and the greatest element of a sorted list sit at its ends. */
  lemma SortedEnds(s: seq<real>, x: real)
    requires SortedReal(s) && x in multiset(s)
    ensures s[0] <= x <= s[|s| - 1]
  {
    var i :| 0 <= i < |s| && s[i] == x;
  }
}
