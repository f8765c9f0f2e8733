/** Counting occurrences per key and listing them in ascending key order: what
    `d3.rollup(data, v => v.length, key)` followed by a sort on the key
    produces for integer keys (local hours, local days, UTC days). */
module Tally {
  import opened SeqMath

  /** `(key, count)` entries. */
  type Counts = seq<(int, nat)>

  /** Keys strictly ascending, stated between neighbours. */
  predicate Ascending(t: Counts) {
    |t| <= 1 || (t[0].0 < t[1].0 && Ascending(t[1..]))
  }

  /** Every listed key was seen at least once. */
  predicate Positive(t: Counts) {
    forall i :: 0 <= i < |t| ==> t[i].1 >= 1
  }

  /** The count listed for `k`, or 0 when `k` is not listed. */
  function CountOf(t: Counts, k: int): nat {
    if t == [] then 0 else if t[0].0 == k then t[0].1 else CountOf(t[1..], k)
  }

  function TotalCount(t: Counts): nat {
    if t == [] then 0 else t[0].1 + TotalCount(t[1..])
  }

  /** Counting one more `x`: its entry goes up by one, or a new entry is
      inserted in key order. */
  function Bump(t: Counts, x: int): (r: Counts)
    ensures |r| >= 1 && r[0].0 == (if t == [] || x < t[0].0 then x else t[0].0)
  {
    if t == [] then [(x, 1)]
    else if t[0].0 == x then [(x, t[0].1 + 1)] + t[1..]
    else if x < t[0].0 then [(x, 1)] + t
    else [t[0]] + Bump(t[1..], x)
  }

  /** The counts of `keys`, in ascending key order. */
  function Tally(keys: seq<int>): Counts {
    if keys == [] then [] else Bump(Tally(keys[..|keys| - 1]), keys[|keys| - 1])
  }

  /** The counts as a list, as `Array.from(..).map(d => d.count)` gives. */
  function CountsOnly(t: Counts): (r: seq<nat>)
    ensures |r| == |t| && forall i :: 0 <= i < |t| ==> r[i] == t[i].1
  {
    seq(|t|, i requires 0 <= i < |t| => t[i].1)
  }

  lemma {:induction false} AscendingBelow(t: Counts, k: int)
    requires Ascending(t) && t != [] && k < t[0].0
    ensures CountOf(t, k) == 0
    decreases |t|
  {
    if |t| > 1 {
      AscendingBelow(t[1..], k);
    }
  }

  /** Bumping keeps the keys ascending and the counts positive, raises the
      total by one and raises exactly the count of `x`. */
  lemma {:induction false} BumpFacts(t: Counts, x: int)
    requires Ascending(t) && Positive(t)
    ensures Ascending(Bump(t, x)) && Positive(Bump(t, x))
    ensures TotalCount(Bump(t, x)) == TotalCount(t) + 1
    ensures forall k :: CountOf(Bump(t, x), k) == CountOf(t, k) + (if k == x then 1 else 0)
    decreases |t|
  {
    var r := Bump(t, x);
    if t == [] {
    } else if t[0].0 == x {
      assert r[1..] == t[1..];
    } else if x < t[0].0 {
      assert r[1..] == t;
      AscendingBelow(t, x);
    } else {
      var rest := Bump(t[1..], x);
      BumpFacts(t[1..], x);
      assert r[1..] == rest;
    }
  }

  /** The tally lists each key once, in ascending order, with its number of
      occurrences; the counts add up to the number of keys. */
  lemma {:induction false} TallyFacts(keys: seq<int>)
    ensures Ascending(Tally(keys)) && Positive(Tally(keys))
    ensures TotalCount(Tally(keys)) == |keys|
    ensures forall k :: CountOf(Tally(keys), k) == Occ(keys, k)
    decreases |keys|
  {
    if keys != [] {
      var init, x := keys[..|keys| - 1], keys[|keys| - 1];
      assert keys == init + [x];
      TallyFacts(init);
      BumpFacts(Tally(init), x);
      forall k ensures CountOf(Tally(keys), k) == Occ(keys, k) {
        OccAppend(init, x, k);
      }
    }
  }

  /** In an ascending list, looking a listed key up finds its own entry; a key
      with a non-zero count is listed. */
  lemma {:induction false} CountOfEntry(t: Counts, i: nat)
    requires Ascending(t) && i < |t|
    ensures CountOf(t, t[i].0) == t[i].1
    decreases |t|
  {
    if i > 0 {
      CountOfEntry(t[1..], i - 1);
      AscendingHead(t, i);
    }
  }

  lemma {:induction false} AscendingHead(t: Counts, i: nat)
    requires Ascending(t) && 0 < i < |t|
    ensures t[0].0 < t[i].0
    decreases |t|
  {
    if i > 1 {
      AscendingHead(t[1..], i - 1);
    }
  }

  lemma {:induction false} CountOfListed(t: Counts, k: int) returns (i: nat)
    requires CountOf(t, k) > 0
    ensures i < |t| && t[i].0 == k
    decreases |t|
  {
    if t[0].0 == k {
      i := 0;
    } else {
      var j := CountOfListed(t[1..], k);
      i := j + 1;
    }
  }

  /** The tally's entries are exactly the distinct keys: each entry's count is
      the number of occurrences of its key, and every key that occurs is
      listed. */
  lemma TallyEntries(keys: seq<int>, i: nat)
    requires i < |Tally(keys)|
    ensures Tally(keys)[i].1 == Occ(keys, Tally(keys)[i].0) >= 1
  {
    TallyFacts(keys);
    CountOfEntry(Tally(keys), i);
  }

  lemma TallyListsKey(keys: seq<int>, k: int) returns (i: nat)
    requires Occ(keys, k) > 0
    ensures i < |Tally(keys)| && Tally(keys)[i].0 == k
  {
    TallyFacts(keys);
    i := CountOfListed(Tally(keys), k);
  }

  /** Ascending between neighbours means ascending between any two entries. */
  lemma {:induction false} AscendingAll(t: Counts, i: nat, j: nat)
    requires Ascending(t) && i < j < |t|
    ensures t[i].0 < t[j].0
    decreases |t|
  {
    if i == 0 {
      AscendingHead(t, j);
    } else {
      AscendingAll(t[1..], i - 1, j - 1);
    }
  }

  lemma {:induction false} TotalCountIsSum(t: Counts)
    ensures SumNat(CountsOnly(t)) == TotalCount(t)
    decreases |t|
  {
    if t != [] {
      TotalCountIsSum(t[1..]);
      assert CountsOnly(t) == [t[0].1] + CountsOnly(t[1..]);
      SumNatAppend([t[0].1], CountsOnly(t[1..]));
      assert SumNat([t[0].1]) == t[0].1 by {
        assert [t[0].1][..0] == [];
      }
    }
  }
}
