/** Plain JavaScript objects used as records: an ordered list of (key, value)
    entries with distinct keys, in property-creation order. */
module Records {
  import opened JsDates

  type Row = seq<(string, JsValue)>

  /** No key occurs twice, as in any JavaScript object. */
  predicate UniqueKeys(row: Row) {
    forall i, j :: 0 <= i < j < |row| ==> row[i].0 != row[j].0
  }

  /** `Object.keys(row)`. */
  function Keys(row: Row): (ks: seq<string>)
    ensures |ks| == |row|
    ensures forall i :: 0 <= i < |row| ==> ks[i] == row[i].0
  {
    seq(|row|, i requires 0 <= i < |row| => row[i].0)
  }

  /** `Object.values(row)`. */
  function Values(row: Row): (vs: seq<JsValue>)
    ensures |vs| == |row|
    ensures forall i :: 0 <= i < |row| ==> vs[i] == row[i].1
  {
    seq(|row|, i requires 0 <= i < |row| => row[i].1)
  }

  /** `row[key]`: the value stored under `key`, `undefined` when absent. */
  function Get(row: Row, key: string): (v: JsValue)
    ensures (forall i :: 0 <= i < |row| ==> row[i].0 != key) ==> v == Undefined
  {
    if row == [] then Undefined
    else if row[0].0 == key then row[0].1
    else Get(row[1..], key)
  }

  /** `row[key] = v`: overwrites an existing property in place, otherwise adds
      the property at the end. */
  function Put(row: Row, key: string, v: JsValue): (r: Row)
    ensures key in Keys(row) ==> |r| == |row| && Keys(r) == Keys(row)
    ensures key !in Keys(row) ==> r == row + [(key, v)]
  {
    if row == [] then [(key, v)]
    else if row[0].0 == key then [(key, v)] + row[1..]
    else
      var rest := Put(row[1..], key, v);
      assert Keys(row)[1..] == Keys(row[1..]);
      [row[0]] + rest
  }

  /** After `row[key] = v`, reading `key` gives `v` and every other key reads
      as before. */
  lemma {:induction false} PutGet(row: Row, key: string, v: JsValue, other: string)
    ensures Get(Put(row, key, v), key) == v
    ensures other != key ==> Get(Put(row, key, v), other) == Get(row, other)
  {
    if row != [] && row[0].0 != key {
      PutGet(row[1..], key, v, other);
      var rest := Put(row[1..], key, v);
      assert Put(row, key, v) == [row[0]] + rest;
      assert ([row[0]] + rest)[1..] == rest;
    }
  }

  /** `row[key] = v` keeps the keys of an object distinct. */
  lemma PutUnique(row: Row, key: string, v: JsValue)
    requires UniqueKeys(row)
    ensures UniqueKeys(Put(row, key, v))
  {
    var r := Put(row, key, v);
    if key in Keys(row) {
      forall i, j | 0 <= i < j < |r| ensures r[i].0 != r[j].0 {
        assert r[i].0 == Keys(r)[i] == Keys(row)[i] == row[i].0;
        assert r[j].0 == Keys(r)[j] == Keys(row)[j] == row[j].0;
      }
    } else {
      forall i, j | 0 <= i < j < |r| ensures r[i].0 != r[j].0 {
        if j == |row| {
          assert row[i].0 == Keys(row)[i];
        }
      }
    }
  }
}
