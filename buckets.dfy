/** The counting loop the hour and weekday charts share: `Array(n).fill(0)`
    and then `counts[key(d)]++` for every record, in input order. */
module Buckets {
  import opened SeqMath

  /** Counts the keys into a fresh array of `n` zeros; bucket `k` ends up
      holding the number of occurrences of `k`. */
  method CountKeys(keys: seq<int>, n: nat) returns (counts: array<nat>)
    requires InRange(keys, n)
    ensures fresh(counts) && counts.Length == n
    ensures counts[..] == Hist(keys, n)
  {
    counts := new nat[n](_ => 0);
    assert counts[..] == Hist(keys[..0], n);
    var i := 0;
    while i < |keys|
      invariant 0 <= i <= |keys|
      invariant counts[..] == Hist(keys[..i], n)
    {
      var k := keys[i];
      HistAppend(keys[..i], k, n);
      assert keys[..i + 1] == keys[..i] + [k];
      counts[k] := counts[k] + 1;
      i := i + 1;
    }
    assert keys[..|keys|] == keys;
  }

  /** Every key lands in exactly one bucket, so the buckets add up to the
      number of keys, and a key that occurs has a non-empty bucket. */
  lemma CountsFacts(keys: seq<int>, n: nat)
    requires InRange(keys, n)
    ensures SumNat(Hist(keys, n)) == |keys|
    ensures forall i :: 0 <= i < |keys| ==> Hist(keys, n)[keys[i]] >= 1
  {
    HistSum(keys, n);
    forall i | 0 <= i < |keys| ensures Hist(keys, n)[keys[i]] >= 1 {
      OccOfElement(keys, i);
    }
  }
}
