/** Grouping by key into an insertion-ordered table, the shape JavaScript's
    `Map` (and a plain object with string keys) gives when values are added
    one at a time: a new key opens an entry at the end, a known key extends
    its entry in place. */
module Groups {
  import opened SeqMath

  /** The first position holding key `k`, or `|g|` when there is none. */
  function KeyIndex<K(==), V>(g: seq<(K, V)>, k: K): (i: nat)
    ensures i <= |g|
    ensures i < |g| ==> g[i].0 == k
    ensures forall j :: 0 <= j < i ==> g[j].0 != k
  {
    if g == [] then 0
    else if g[0].0 == k then 0
    else 1 + KeyIndex(g[1..], k)
  }

  function EntryKeys<K, V>(g: seq<(K, V)>): (ks: seq<K>)
    ensures |ks| == |g| && forall i :: 0 <= i < |g| ==> ks[i] == g[i].0
  {
    seq(|g|, i requires 0 <= i < |g| => g[i].0)
  }

  predicate DistinctKeys<K(==), V>(g: seq<(K, V)>) {
    forall i, j :: 0 <= i < j < |g| ==> g[i].0 != g[j].0
  }

  /** The items whose key is `k`, in input order. */
  function Select<K(==), T>(keys: seq<K>, items: seq<T>, k: K): (r: seq<T>)
    requires |keys| == |items|
    ensures |r| <= |keys|
  {
    if keys == [] then []
    else
      Select(keys[..|keys| - 1], items[..|items| - 1], k)
      + (if keys[|keys| - 1] == k then [items[|items| - 1]] else [])
  }

  /** Adds `x` under key `k`. */
  function AddTo<K(==), T>(g: seq<(K, seq<T>)>, k: K, x: T): (r: seq<(K, seq<T>)>)
  {
    var i := KeyIndex(g, k);
    if i == |g| then g + [(k, [x])] else g[i := (k, g[i].1 + [x])]
  }

  /** Where `AddTo` puts the item: at the key's entry, or in a new last
      entry; every other entry is unchanged. */
  lemma AddToAt<K, T>(g: seq<(K, seq<T>)>, k: K, x: T)
    ensures var r, i := AddTo(g, k, x), KeyIndex(g, k);
            |r| == (if i == |g| then |g| + 1 else |g|)
            && r[i] == (k, (if i < |g| then g[i].1 else []) + [x])
            && forall j :: 0 <= j < |r| && j != i ==> r[j] == g[j]
  {
    assert [] + [x] == [x];
  }

  /** The items grouped by key, entries in order of each key's first appearance. */
  function GroupBy<K(==), T>(keys: seq<K>, items: seq<T>): seq<(K, seq<T>)>
    requires |keys| == |items|
  {
    if keys == [] then []
    else AddTo(GroupBy(keys[..|keys| - 1], items[..|items| - 1]), keys[|keys| - 1], items[|items| - 1])
  }

  /** The total number of grouped items. */
  function TotalSize<K, T>(g: seq<(K, seq<T>)>): nat {
    if g == [] then 0 else TotalSize(g[..|g| - 1]) + |g[|g| - 1].1|
  }

  lemma SelectStep<K, T>(keys: seq<K>, items: seq<T>, k: K, x: T, key: K)
    requires |keys| == |items|
    ensures Select(keys + [k], items + [x], key) == Select(keys, items, key) + (if k == key then [x] else [])
  {
    assert (keys + [k])[..|keys|] == keys;
    assert (items + [x])[..|items|] == items;
  }

  lemma SelectAbsent<K, T>(keys: seq<K>, items: seq<T>, k: K)
    requires |keys| == |items| && k !in keys
    ensures Select(keys, items, k) == []
  {
    if keys != [] {
      SelectAbsent(keys[..|keys| - 1], items[..|items| - 1], k);
    }
  }

  lemma {:induction false} TotalSizeAppend<K, T>(a: seq<(K, seq<T>)>, b: seq<(K, seq<T>)>)
    ensures TotalSize(a + b) == TotalSize(a) + TotalSize(b)
    decreases |b|
  {
    if b == [] {
      assert a + b == a;
    } else {
      assert (a + b)[..|a + b| - 1] == a + b[..|b| - 1];
      TotalSizeAppend(a, b[..|b| - 1]);
    }
  }

  lemma TotalSizeUpdate<K, T>(g: seq<(K, seq<T>)>, i: nat, e: (K, seq<T>))
    requires i < |g|
    ensures TotalSize(g[i := e]) == TotalSize(g) - |g[i].1| + |e.1|
  {
    assert g == g[..i] + [g[i]] + g[i + 1..];
    assert g[i := e] == g[..i] + [e] + g[i + 1..];
    TotalSizeAppend(g[..i] + [g[i]], g[i + 1..]);
    TotalSizeAppend(g[..i], [g[i]]);
    TotalSizeAppend(g[..i] + [e], g[i + 1..]);
    TotalSizeAppend(g[..i], [e]);
    assert TotalSize([g[i]]) == |g[i].1| by { assert [g[i]][..0] == []; }
    assert TotalSize([e]) == |e.1| by { assert [e][..0] == []; }
  }

  /** Adding under a known key extends that entry; under a new key it opens
      one at the end. Distinct keys stay distinct. */
  lemma AddToShape<K, T>(g: seq<(K, seq<T>)>, k: K, x: T)
    requires DistinctKeys(g)
    ensures var r := AddTo(g, k, x);
            DistinctKeys(r)
            && |r| == |g| + (if k in EntryKeys(g) then 0 else 1)
            && (forall j :: 0 <= j < |g| ==> r[j] == (g[j].0, g[j].1 + (if g[j].0 == k then [x] else [])))
            && (k !in EntryKeys(g) ==> r[|g|] == (k, [x]))
            && TotalSize(r) == TotalSize(g) + 1
  {
    var i := KeyIndex(g, k);
    var r := AddTo(g, k, x);
    if i == |g| {
      assert k !in EntryKeys(g);
      TotalSizeAppend(g, [(k, [x])]);
      assert TotalSize([(k, [x])]) == 1 by { assert [(k, [x])][..0] == []; }
    } else {
      assert EntryKeys(g)[i] == k;
      TotalSizeUpdate(g, i, (k, g[i].1 + [x]));
    }
    forall j | 0 <= j < |g| ensures r[j] == (g[j].0, g[j].1 + (if g[j].0 == k then [x] else [])) {
      if j != i {
        if i < j < |g| { assert g[i].0 != g[j].0; }
        assert g[j].1 + [] == g[j].1;
      }
    }
  }

  /** Grouping keeps keys distinct, has an entry for exactly the input's keys,
      and its entry sizes add up to the number of items. */
  lemma {:induction false} GroupByShape<K, T>(keys: seq<K>, items: seq<T>)
    requires |keys| == |items|
    ensures var g := GroupBy(keys, items);
            DistinctKeys(g)
            && (forall k :: k in keys <==> k in EntryKeys(g))
            && TotalSize(g) == |keys|
    decreases |keys|
  {
    if keys != [] {
      var ks, xs := keys[..|keys| - 1], items[..|items| - 1];
      var k, x := keys[|keys| - 1], items[|items| - 1];
      assert keys == ks + [k];
      GroupByShape(ks, xs);
      var prev := GroupBy(ks, xs);
      var g := GroupBy(keys, items);
      AddToShape(prev, k, x);
      AddToKeys(ks, prev, k, x);
    }
  }

  /** Adding under `k` to a table keyed by exactly the keys of `ks` gives a
      table keyed by exactly the keys of `ks + [k]`. */
  lemma AddToKeys<K, T>(ks: seq<K>, prev: seq<(K, seq<T>)>, k: K, x: T)
    requires DistinctKeys(prev)
    requires forall key :: key in ks <==> key in EntryKeys(prev)
    ensures forall key :: key in ks + [k] <==> key in EntryKeys(AddTo(prev, k, x))
  {
    var g := AddTo(prev, k, x);
    AddToShape(prev, k, x);
    forall key ensures key in ks + [k] <==> key in EntryKeys(g) {
      if key in EntryKeys(g) {
        var j :| 0 <= j < |g| && g[j].0 == key;
        if j < |prev| {
          assert EntryKeys(prev)[j] == key;
        }
      }
      if key in ks {
        var j :| 0 <= j < |prev| && prev[j].0 == key;
        assert g[j].0 == key;
      }
      if key == k && k !in EntryKeys(prev) {
        assert g[|prev|].0 == k;
      }
    }
  }

  /** Each entry holds, in input order, exactly the items with its key. */
  lemma {:induction false} GroupByContents<K, T>(keys: seq<K>, items: seq<T>)
    requires |keys| == |items|
    ensures var g := GroupBy(keys, items);
            forall i :: 0 <= i < |g| ==> g[i].1 == Select(keys, items, g[i].0)
    decreases |keys|
  {
    if keys != [] {
      var ks, xs := keys[..|keys| - 1], items[..|items| - 1];
      var k, x := keys[|keys| - 1], items[|items| - 1];
      assert keys == ks + [k] && items == xs + [x];
      GroupByContents(ks, xs);
      GroupByShape(ks, xs);
      var prev := GroupBy(ks, xs);
      var g := GroupBy(keys, items);
      AddToShape(prev, k, x);
      forall j | 0 <= j < |g| ensures g[j].1 == Select(keys, items, g[j].0) {
        SelectStep(ks, xs, k, x, g[j].0);
        if j == |prev| {
          SelectAbsent(ks, xs, k);
        }
      }
    }
  }

  /** Every entry of a grouping is non-empty. */
  lemma SelectNonEmpty<K, T>(keys: seq<K>, items: seq<T>, k: K)
    requires |keys| == |items| && k in keys
    ensures |Select(keys, items, k)| >= 1
  {
    var init := keys[..|keys| - 1];
    if keys[|keys| - 1] != k {
      assert k in init;
      SelectNonEmpty(init, items[..|items| - 1], k);
    }
  }

  /** No entry of a grouping is empty. */
  lemma GroupByNonEmpty<K, T>(keys: seq<K>, items: seq<T>)
    requires |keys| == |items|
    ensures var g := GroupBy(keys, items);
            forall i :: 0 <= i < |g| ==> |g[i].1| >= 1
  {
    var g := GroupBy(keys, items);
    GroupByShape(keys, items);
    GroupByContents(keys, items);
    forall i | 0 <= i < |g| ensures |g[i].1| >= 1 {
      assert EntryKeys(g)[i] == g[i].0;
      SelectNonEmpty(keys, items, g[i].0);
    }
  }

  /** One more item extends the grouping of the shorter prefix. */
  lemma GroupByPrefix<K, T>(keys: seq<K>, items: seq<T>, i: nat)
    requires |keys| == |items| && i < |keys|
    ensures GroupBy(keys[..i + 1], items[..i + 1]) == AddTo(GroupBy(keys[..i], items[..i]), keys[i], items[i])
  {
    assert keys[..i + 1][..i] == keys[..i];
    assert items[..i + 1][..i] == items[..i];
  }

  /** Two tables with the same key sequence find a key at the same place. */
  lemma {:induction false} KeyIndexSameKeys<K, V, W>(a: seq<(K, V)>, b: seq<(K, W)>, k: K)
    requires |a| == |b| && forall j :: 0 <= j < |a| ==> a[j].0 == b[j].0
    ensures KeyIndex(a, k) == KeyIndex(b, k)
    decreases |a|
  {
    if a != [] && a[0].0 != k {
      KeyIndexSameKeys(a[1..], b[1..], k);
    }
  }

  /** The entry sizes, in order. */
  function Sizes<K, T>(g: seq<(K, seq<T>)>): (s: seq<nat>)
    ensures |s| == |g| && forall i :: 0 <= i < |g| ==> s[i] == |g[i].1|
  {
    seq(|g|, i requires 0 <= i < |g| => |g[i].1|)
  }

  lemma {:induction false} SizesSum<K, T>(g: seq<(K, seq<T>)>)
    ensures SumNat(Sizes(g)) == TotalSize(g)
    decreases |g|
  {
    if g != [] {
      SizesSum(g[..|g| - 1]);
      assert Sizes(g)[..|g| - 1] == Sizes(g[..|g| - 1]);
    }
  }

  /** Entry `j` of a grouping: a key that occurs in the input, holding
      exactly that key's items in order, at least one of them. */
  lemma GroupByEntry<K, T>(keys: seq<K>, items: seq<T>, j: nat)
    requires |keys| == |items| && j < |GroupBy(keys, items)|
    ensures var e := GroupBy(keys, items)[j];
            e.0 in keys && |e.1| >= 1 && e.1 == Select(keys, items, e.0)
  {
    var g := GroupBy(keys, items);
    GroupByShape(keys, items);
    GroupByContents(keys, items);
    assert EntryKeys(g)[j] == g[j].0;
    SelectNonEmpty(keys, items, g[j].0);
  }

  /** The entry sizes of a grouping add up to the number of items. */
  lemma GroupBySizes<K, T>(keys: seq<K>, items: seq<T>)
    requires |keys| == |items|
    ensures SumNat(Sizes(GroupBy(keys, items))) == |keys|
  {
    GroupByShape(keys, items);
    SizesSum(GroupBy(keys, items));
  }

  lemma TakeAll<T>(s: seq<T>)
    ensures s[..|s|] == s
  {
  }
}
