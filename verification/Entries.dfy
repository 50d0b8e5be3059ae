/** Sorted runs of key-value entries and the lookup they support. Every ordered index of the
    repository keeps its leaves this way. */
module Entries {

  type Key = int
  type Value = int

  datatype Option<+T> = None | Some(value: T)

  datatype Entry = Entry(key: Key, val: Value)

  function MapGet(m: map<Key, Value>, k: Key): Option<Value> {
    if k in m then Some(m[k]) else None
  }

  ghost predicate Sorted(keys: seq<Key>) {
    forall i, j :: 0 <= i < j < |keys| ==> keys[i] < keys[j]
  }

  function KeysOf(data: seq<Entry>): (keys: seq<Key>)
    ensures |keys| == |data|
    ensures forall i :: 0 <= i < |data| ==> keys[i] == data[i].key
  {
    seq(|data|, i requires 0 <= i < |data| => data[i].key)
  }

  predicate IsLowerBound(keys: seq<Key>, k: Key, pos: nat) {
    pos <= |keys| && (forall i :: 0 <= i < pos ==> keys[i] < k) && (pos < |keys| ==> k <= keys[pos])
  }

  function SeekFrom(keys: seq<Key>, k: Key, from: nat): (pos: nat)
    requires from <= |keys|
    ensures from <= pos <= |keys|
    ensures (forall i :: from <= i < pos ==> keys[i] < k) && (pos < |keys| ==> k <= keys[pos])
    decreases |keys| - from
  {
    if from == |keys| || k <= keys[from] then from else SeekFrom(keys, k, from + 1)
  }

  lemma LowerBoundExists(keys: seq<Key>, k: Key)
    ensures exists pos: nat :: IsLowerBound(keys, k, pos)
  {
    assert IsLowerBound(keys, k, SeekFrom(keys, k, 0));
  }

  /** The first position whose key is not below `k`. */
  function LowerBound(keys: seq<Key>, k: Key): (pos: nat)
    ensures pos <= |keys|
    ensures forall i :: 0 <= i < pos ==> keys[i] < k
    ensures pos < |keys| ==> k <= keys[pos]
  {
    LowerBoundExists(keys, k);
    var pos: nat :| IsLowerBound(keys, k, pos);
    pos
  }

  lemma LowerBoundUnique(keys: seq<Key>, k: Key, pos: nat)
    requires Sorted(keys) && pos <= |keys|
    requires pos > 0 ==> keys[pos - 1] < k
    requires pos < |keys| ==> k <= keys[pos]
    ensures pos == LowerBound(keys, k)
  {
  }

  /** A cut anywhere leaves the lower bound of a key in its part of the list where it was. */
  lemma LowerBoundPart(keys: seq<Key>, k: Key, cut: nat)
    requires Sorted(keys) && cut <= |keys|
    ensures LowerBound(keys, k) <= cut ==> LowerBound(keys[..cut], k) == LowerBound(keys, k)
    ensures cut <= LowerBound(keys, k) ==> LowerBound(keys[cut..], k) == LowerBound(keys, k) - cut
  {
    var i, l, r := LowerBound(keys, k), keys[..cut], keys[cut..];
    if i <= cut {
      LowerBoundUnique(l, k, i);
    }
    if cut <= i {
      LowerBoundUnique(r, k, i - cut);
    }
  }

  function LeafGet(data: seq<Entry>, k: Key): (r: Option<Value>)
  {
    var pos := LowerBound(KeysOf(data), k);
    if pos < |data| && data[pos].key == k then Some(data[pos].val) else None
  }

  /** `LeafGet` finds exactly the entries of a sorted leaf. */
  lemma LeafGetIff(data: seq<Entry>, k: Key)
    requires Sorted(KeysOf(data))
    ensures forall i :: 0 <= i < |data| && data[i].key == k ==> LeafGet(data, k) == Some(data[i].val)
    ensures LeafGet(data, k).Some? <==> k in KeysOf(data)
  {
    var pos := LowerBound(KeysOf(data), k);
    forall i | 0 <= i < |data| && data[i].key == k
      ensures i == pos
    {
      LowerBoundUnique(KeysOf(data), k, i);
    }
  }

  /** Joining two sorted runs, the first below the second. */
  lemma JoinRuns(a: seq<Entry>, b: seq<Entry>, k: Key)
    requires Sorted(KeysOf(a)) && Sorted(KeysOf(b))
    requires forall i, j :: 0 <= i < |a| && 0 <= j < |b| ==> a[i].key < b[j].key
    ensures Sorted(KeysOf(a + b))
    ensures LeafGet(a + b, k) == if LeafGet(a, k).Some? then LeafGet(a, k) else LeafGet(b, k)
  {
    var r := a + b;
    assert KeysOf(r) == KeysOf(a) + KeysOf(b);
    LeafGetIff(a, k);
    LeafGetIff(b, k);
    LeafGetIff(r, k);
    if k in KeysOf(a) {
      var i :| 0 <= i < |a| && a[i].key == k;
      assert r[i] == a[i];
    } else if k in KeysOf(b) {
      var i :| 0 <= i < |b| && b[i].key == k;
      assert r[|a| + i] == b[i];
    }
  }

  // ----- putting an entry in --------------------------------------------------------------------

  /** A key put at its lower bound. */
  function InsertKey(keys: seq<Key>, sep: Key): (r: seq<Key>)
    ensures |r| == |keys| + 1
  {
    var pos := LowerBound(keys, sep);
    keys[..pos] + [sep] + keys[pos..]
  }

  /** The entry for `k` overwritten, or put at its lower bound. */
  function LeafPut(data: seq<Entry>, k: Key, v: Value): (r: seq<Entry>)
  {
    var pos := LowerBound(KeysOf(data), k);
    if pos < |data| && data[pos].key == k then data[pos := Entry(k, v)]
    else data[..pos] + [Entry(k, v)] + data[pos..]
  }

  /** Inserting a missing key at its lower bound keeps a key list sorted. */
  lemma InsertKeySorted(keys: seq<Key>, k: Key)
    requires Sorted(keys) && k !in keys
    ensures Sorted(InsertKey(keys, k))
    ensures forall x :: x in InsertKey(keys, k) <==> x == k || x in keys
  {
    SplicedSorted(keys, LowerBound(keys, k), k);
  }

  lemma SplicedSorted(keys: seq<Key>, pos: nat, k: Key)
    requires Sorted(keys) && pos <= |keys|
    requires (forall i :: 0 <= i < pos ==> keys[i] < k) && (forall i :: pos <= i < |keys| ==> k < keys[i])
    ensures var r := keys[..pos] + [k] + keys[pos..];
            Sorted(r) && forall x :: x in r <==> x == k || x in keys
  {
    var l, h := keys[..pos], keys[pos..];
    var r := l + [k] + h;
    assert keys == l + h;
    forall x
      ensures x in r <==> x == k || x in keys
    {
      assert x in r <==> x in l || x == k || x in h;
      assert x in keys <==> x in l || x in h;
    }
  }

  lemma LeafPutSorted(data: seq<Entry>, k: Key, v: Value)
    requires Sorted(KeysOf(data))
    ensures Sorted(KeysOf(LeafPut(data, k, v)))
    ensures forall x :: x in KeysOf(LeafPut(data, k, v)) <==> x == k || x in KeysOf(data)
    ensures |LeafPut(data, k, v)| == |data| + (if k in KeysOf(data) then 0 else 1)
  {
    var keys, put := KeysOf(data), LeafPut(data, k, v);
    var pos := LowerBound(keys, k);
    LeafGetIff(data, k);
    if pos < |data| && data[pos].key == k {
      assert KeysOf(put) == keys;
    } else {
      assert KeysOf(put) == InsertKey(keys, k);
      InsertKeySorted(keys, k);
    }
  }

  /** Put changes the meaning of a sorted leaf at `k` and nowhere else. */
  lemma LeafPutGet(data: seq<Entry>, k: Key, v: Value, x: Key)
    requires Sorted(KeysOf(data))
    ensures LeafGet(LeafPut(data, k, v), x) == if x == k then Some(v) else LeafGet(data, x)
  {
    var put := LeafPut(data, k, v);
    LeafPutSorted(data, k, v);
    LeafGetIff(data, x);
    LeafGetIff(put, x);
    var pos := LowerBound(KeysOf(data), k);
    assert put[pos] == Entry(k, v);
    if x != k && x in KeysOf(data) {
      var i :| 0 <= i < |data| && data[i].key == x;
      if |put| == |data| || i < pos {
        assert put[i] == data[i];
      } else {
        assert put[i + 1] == data[i];
      }
    }
  }
}
