/** BTreeOLCIndex::scan: one-leaf scans stitched together on a tree at rest. */
module OlcIndex {
  import opened Entries
  import opened OlcNode
  import opened OlcProtocol
  import opened OlcSpec
  import opened OlcInvariant
  import opened OlcTree
  import opened OlcSteps

  // The 8-byte key type of the index.
  const KEY_LIMIT: nat := 0x1_0000_0000_0000_0000
  const KEY_MAX: nat := KEY_LIMIT - 1

  // incKey on an unsigned 64-bit integer.
  function IncKey(k: Key): Key
    requires 0 <= k < KEY_LIMIT
  {
    (k + 1) % KEY_LIMIT
  }

  /** BTree::scan with no other call running: descend, then copy out of one leaf. */
  function ScanFrom(cells: map<NodeId, Cell>, n: NodeId, k: Key, range: nat, h: nat): seq<Value>
    decreases h
  {
    if n !in cells then [] else
    match cells[n].node
    case Leaf(data) => LeafScan(data, k, range)
    case Inner(keys, children) =>
      var i := LowerBound(keys, k);
      if h == 0 || i >= |children| then [] else ScanFrom(cells, children[i], k, range, h - 1)
  }

  lemma {:induction false} ScanFromOk(s: State, m: map<Key, Value>, n: NodeId, k: Key, range: nat, h: nat)
    requires TreeOk(s, m) && n in s.cells && Covers(s.cells[n].span, k) && s.cells[n].span.level <= h
    ensures ScanOk(m, k, range, ScanFrom(s.cells, n, k, range, h))
    decreases h
  {
    assert CellOk(s.cells, n);
    match s.cells[n].node
    case Leaf(data) =>
      assert Agrees(data, s.cells[n].span, m);
      LeafScanOk(data, s.cells[n].span, m, k, range);
    case Inner(keys, children) =>
      var child := children[LowerBound(keys, k)];
      Descend(s, m, n, k, child);
      ScanFromOk(s, m, child, k, range, h - 1);
  }

  function RootScan(s: State, k: Key, range: nat): seq<Value> {
    if s.root in s.cells then ScanFrom(s.cells, s.root, k, range, s.cells[s.root].span.level) else []
  }

  /** The pieces a range scan appends to what it has. */
  function Stitched(s: State, keyAt: Value -> Key, range: nat, results: seq<Value>): seq<Value>
    decreases if |results| < range then range - |results| else 0
  {
    if results == [] || |results| >= range then results
    else
      var last := keyAt(results[|results| - 1]);
      if !(0 <= last < KEY_LIMIT) then results
      else
        var more := RootScan(s, IncKey(last), range - |results|);
        if more == [] then results else Stitched(s, keyAt, range, results + more)
  }

  lemma RootScanOk(s: State, m: map<Key, Value>, k: Key, range: nat)
    requires TreeOk(s, m)
    ensures ScanOk(m, k, range, RootScan(s, k, range)) && AllStored(m, RootScan(s, k, range))
    ensures |RootScan(s, k, range)| <= range
  {
    ScanFromOk(s, m, s.root, k, range, s.cells[s.root].span.level);
    ScanStored(m, k, range, RootScan(s, k, range));
  }

  ghost predicate ScansAt(s: State, m: map<Key, Value>, k: Key, range: nat) {
    ScanOk(m, k, range, RootScan(s, k, range)) && AllStored(m, RootScan(s, k, range))
  }

  /** Every one-leaf scan of the tree is one of the map. */
  ghost predicate ScansWell(s: State, m: map<Key, Value>) {
    forall k, range {:trigger ScansAt(s, m, k, range)} :: ScansAt(s, m, k, range)
  }

  lemma TreeScansWell(s: State, m: map<Key, Value>)
    requires TreeOk(s, m)
    ensures ScansWell(s, m)
  {
    forall k, range: nat ensures ScansAt(s, m, k, range) {
      RootScanOk(s, m, k, range);
    }
  }

  method TreeScan(s: State, ghost m: map<Key, Value>, k: Key, range: nat) returns (vals: seq<Value>)
    requires TreeOk(s, m)
    ensures ScanOk(m, k, range, vals) && AllStored(m, vals) && |vals| <= range
    ensures vals == RootScan(s, k, range)
  {
    RootScanOk(s, m, k, range);
    vals := ScanFrom(s.cells, s.root, k, range, s.cells[s.root].span.level);
  }

  ghost predicate IsStored(m: map<Key, Value>, v: Value) {
    exists x :: x in m && m[x] == v
  }

  ghost predicate AllStored(m: map<Key, Value>, vals: seq<Value>) {
    forall i :: 0 <= i < |vals| ==> IsStored(m, vals[i])
  }

  lemma ScanStored(m: map<Key, Value>, k: Key, range: nat, vals: seq<Value>)
    requires ScanOk(m, k, range, vals)
    ensures AllStored(m, vals)
  {
    var keys :| ScanKeys(m, k, vals, keys);
    forall i | 0 <= i < |vals|
      ensures IsStored(m, vals[i])
    {
      assert keys[i] in m;
    }
  }

  // ---------------------------------------------------------------- what a range scan should return

  /** The first `range` payloads from `k` on, or all of them if there are fewer. */
  ghost predicate ExactScan(m: map<Key, Value>, k: Key, range: nat, vals: seq<Value>) {
    exists keys :: ScanKeys(m, k, vals, keys) && Complete(m, k, range, keys)
  }

  ghost predicate Complete(m: map<Key, Value>, k: Key, range: nat, keys: seq<Key>) {
    && |keys| <= range
    && (|keys| == range || forall x :: x in m && k <= x ==> x in keys)
  }

  ghost function From(m: map<Key, Value>, k: Key): set<Key> {
    set x | x in m && k <= x
  }

  lemma {:induction false} SortedSize(keys: seq<Key>)
    requires Sorted(keys)
    ensures |set x | x in keys| == |keys|
  {
    if keys != [] {
      var init, last := keys[..|keys| - 1], keys[|keys| - 1];
      SortedSize(init);
      assert last !in init;
      assert (set x | x in keys) == (set x | x in init) + {last};
    } else {
      assert (set x | x in keys) == {};
    }
  }

  lemma SubsetSize(a: set<Key>, b: set<Key>)
    requires a <= b
    ensures |a| <= |b|
  {
    assert b == a + (b - a);
  }

  lemma FirstKeysBound(m: map<Key, Value>, k: Key, keys: seq<Key>)
    requires FirstKeys(m, k, keys)
    ensures |keys| <= |From(m, k)|
    ensures (forall x :: x in m && k <= x ==> x in keys) ==> |keys| == |From(m, k)|
  {
    SortedSize(keys);
    var got := set x | x in keys;
    SubsetSize(got, From(m, k));
    if forall x :: x in m && k <= x ==> x in keys {
      assert got == From(m, k);
    }
  }

  lemma AscendOn(a: seq<Key>, b: seq<Key>)
    requires Sorted(a) && Sorted(b) && a != [] && forall j :: 0 <= j < |b| ==> a[|a| - 1] < b[j]
    ensures Sorted(a + b)
  {
    var all := a + b;
    forall i, j | 0 <= i < j < |all| ensures all[i] < all[j] {
      if i < |a| <= j {
        assert a[i] <= a[|a| - 1] && all[j] == b[j - |a|];
      }
    }
  }

  lemma AppendFirst(m: map<Key, Value>, k: Key, vals: seq<Value>, keys: seq<Key>,
                    more: seq<Value>, next: seq<Key>)
    requires ScanKeys(m, k, vals, keys) && keys != []
    requires ScanKeys(m, keys[|keys| - 1] + 1, more, next)
    ensures ScanKeys(m, k, vals + more, keys + next)
  {
    var last := keys[|keys| - 1];
    var all := keys + next;
    AscendOn(keys, next);
    forall x | x in m && k <= x <= all[|all| - 1]
      ensures x in all
    {
      if x > last {
        assert next != [] && all[|all| - 1] == next[|next| - 1];
      }
    }
  }

  // ---------------------------------------------------------------- the stitching loop

  ghost predicate Bounded(m: map<Key, Value>) {
    forall x :: x in m ==> 0 <= x < KEY_LIMIT
  }

  // Payloads are the addresses of their keys.
  ghost predicate PointsBack(m: map<Key, Value>, keyAt: Value -> Key) {
    forall x :: x in m ==> keyAt(m[x]) == x
  }

  lemma KeyOfStored(m: map<Key, Value>, keyAt: Value -> Key, v: Value)
    requires Bounded(m) && PointsBack(m, keyAt) && IsStored(m, v)
    ensures 0 <= keyAt(v) < KEY_LIMIT
  {
    var x :| x in m && m[x] == v;
    assert keyAt(m[x]) == x;
  }

  ghost predicate Wrapped(m: map<Key, Value>, key: Key, range: nat, results: seq<Value>) {
    KEY_MAX in m && |From(m, key)| < range && |From(m, key)| < |results| <= range
  }

  // Nothing has wrapped: the results so far are an exact prefix.
  ghost predicate Straight(m: map<Key, Value>, key: Key, results: seq<Value>) {
    exists keys :: ScanKeys(m, key, results, keys)
  }

  lemma WrappedIsWrong(m: map<Key, Value>, key: Key, range: nat, results: seq<Value>)
    requires Wrapped(m, key, range, results)
    ensures !ExactScan(m, key, range, results)
  {
    if ExactScan(m, key, range, results) {
      var keys :| ScanKeys(m, key, results, keys) && Complete(m, key, range, keys);
      FirstKeysBound(m, key, keys);
    }
  }

  lemma IncKeyIs(k: Key)
    requires 0 <= k < KEY_LIMIT
    ensures IncKey(k) == if k == KEY_MAX then 0 else k + 1
  {
  }

  /** The greatest key is reached: whatever comes next has wrapped. */
  lemma StitchLast(m: map<Key, Value>, key: Key, range: nat, results: seq<Value>, keys: seq<Key>, more: seq<Value>)
    requires Bounded(m) && |results| < range && ScanKeys(m, key, results, keys)
    requires keys != [] && keys[|keys| - 1] == KEY_MAX && ScanOk(m, 0, range - |results|, more)
    ensures more != [] && Wrapped(m, key, range, results + more)
  {
    assert KEY_MAX in m;
    assert forall x :: x in m && key <= x ==> x in keys;
    FirstKeysBound(m, key, keys);
  }

  /** The whole of one round of the loop, from the results so far to the longer results. */
  lemma Stitch(m: map<Key, Value>, keyAt: Value -> Key, key: Key, range: nat, results: seq<Value>, more: seq<Value>)
    requires Bounded(m) && PointsBack(m, keyAt) && 0 <= key < KEY_LIMIT
    requires 0 < |results| < range && Straight(m, key, results)
    requires 0 <= keyAt(results[|results| - 1]) < KEY_LIMIT
    requires ScanOk(m, IncKey(keyAt(results[|results| - 1])), range - |results|, more)
    ensures more != [] ==> Straight(m, key, results + more) || Wrapped(m, key, range, results + more)
    ensures more == [] ==> ExactScan(m, key, range, results) && !(KEY_MAX in m && |From(m, key)| < range)
  {
    var keys :| ScanKeys(m, key, results, keys);
    var last := keys[|keys| - 1];
    assert last in m && results[|results| - 1] == m[last];
    assert keyAt(m[last]) == last;
    IncKeyIs(last);
    if last == KEY_MAX {
      StitchLast(m, key, range, results, keys, more);
    } else {
      StitchOn(m, key, range, results, keys, more);
    }
  }

  /** The next key has not wrapped. */
  lemma StitchOn(m: map<Key, Value>, key: Key, range: nat, results: seq<Value>, keys: seq<Key>, more: seq<Value>)
    requires Bounded(m) && |results| < range && ScanKeys(m, key, results, keys)
    requires keys != [] && ScanOk(m, keys[|keys| - 1] + 1, range - |results|, more) && keys[|keys| - 1] != KEY_MAX
    ensures more != [] ==> Straight(m, key, results + more)
    ensures more == [] ==> ExactScan(m, key, range, results) && !(KEY_MAX in m && |From(m, key)| < range)
  {
    var last := keys[|keys| - 1];
    var next :| ScanKeys(m, last + 1, more, next);
    AppendFirst(m, key, results, keys, more, next);
    if more == [] {
      assert last in m && last < KEY_MAX;
      assert forall x :: x in m && key <= x ==> x in keys by {
        assert forall x :: x in m ==> x < last + 1;
      }
      assert Complete(m, key, range, keys);
      assert KEY_MAX !in m;
    }
  }

  lemma FullIsExact(m: map<Key, Value>, key: Key, range: nat, results: seq<Value>)
    requires Straight(m, key, results) && |results| == range
    ensures ExactScan(m, key, range, results) && |From(m, key)| >= range
  {
    var keys :| ScanKeys(m, key, results, keys);
    FirstKeysBound(m, key, keys);
    assert Complete(m, key, range, keys);
  }

  lemma EmptyIsExact(m: map<Key, Value>, key: Key, range: nat)
    requires ScanOk(m, key, range, []) && 0 <= key < KEY_LIMIT
    ensures ExactScan(m, key, range, []) && !(KEY_MAX in m && |From(m, key)| < range)
  {
    assert ScanKeys(m, key, [], []);
    assert Complete(m, key, range, []);
  }

  /** What the loop has collected: entries of the map, gap-free from `key` on unless the key has wrapped. */
  ghost predicate Collected(m: map<Key, Value>, key: Key, range: nat, results: seq<Value>) {
    0 < |results| <= range && AllStored(m, results) && (Straight(m, key, results) || Wrapped(m, key, range, results))
  }

  lemma MoreCollected(m: map<Key, Value>, keyAt: Value -> Key, key: Key, range: nat, results: seq<Value>,
      more: seq<Value>)
    requires Bounded(m) && PointsBack(m, keyAt) && 0 <= key < KEY_LIMIT
    requires Collected(m, key, range, results) && |results| < range
    requires 0 <= keyAt(results[|results| - 1]) < KEY_LIMIT
    requires ScanOk(m, IncKey(keyAt(results[|results| - 1])), range - |results|, more) && AllStored(m, more)
    ensures more != [] ==> Collected(m, key, range, results + more)
    ensures more == [] ==> (ExactScan(m, key, range, results) <==> !(KEY_MAX in m && |From(m, key)| < range))
  {
    if Straight(m, key, results) {
      Stitch(m, keyAt, key, range, results, more);
    } else {
      WrappedIsWrong(m, key, range, results);
    }
  }

  lemma FullCollected(m: map<Key, Value>, key: Key, range: nat, results: seq<Value>)
    requires Collected(m, key, range, results) && |results| == range
    ensures ExactScan(m, key, range, results) <==> !(KEY_MAX in m && |From(m, key)| < range)
  {
    if Straight(m, key, results) {
      FullIsExact(m, key, range, results);
    } else {
      WrappedIsWrong(m, key, range, results);
    }
  }

  /** Stitching what was collected gives the exact result, or not, as the condition says. */
  lemma {:induction false} StitchedOk(s: State, m: map<Key, Value>, keyAt: Value -> Key, key: Key, range: nat,
                                      results: seq<Value>)
    requires ScansWell(s, m) && Bounded(m) && PointsBack(m, keyAt) && 0 <= key < KEY_LIMIT
    requires Collected(m, key, range, results)
    ensures var r := Stitched(s, keyAt, range, results);
            |r| <= range && (ExactScan(m, key, range, r) <==> !(KEY_MAX in m && |From(m, key)| < range))
    decreases range - |results|
  {
    if |results| == range {
      FullCollected(m, key, range, results);
    } else {
      var last := keyAt(results[|results| - 1]);
      KeyOfStored(m, keyAt, results[|results| - 1]);
      var more := RootScan(s, IncKey(last), range - |results|);
      assert ScansAt(s, m, IncKey(last), range - |results|);
      MoreCollected(m, keyAt, key, range, results, more);
      StitchRound(s, keyAt, range, results, more);
      if more != [] {
        StitchedOk(s, m, keyAt, key, range, results + more);
      }
    }
  }

  lemma FirstCollected(m: map<Key, Value>, key: Key, range: nat, results: seq<Value>)
    requires ScanOk(m, key, range, results) && AllStored(m, results) && results != []
    ensures Collected(m, key, range, results)
  {
  }

  /** The range scan returns exactly the first `range` payloads from `key` in key order, if and only if
      it is not the case that the greatest 64-bit key is stored and fewer than `range` entries lie at
      or above `key`: then the next key wraps to 0 and entries below `key` are appended. */
  method Scan(s: State, ghost m: map<Key, Value>, keyAt: Value -> Key, key: Key, range: nat)
    returns (results: seq<Value>)
    requires TreeOk(s, m) && Bounded(m) && PointsBack(m, keyAt) && 0 <= key < KEY_LIMIT
    ensures |results| <= range && results == Stitched(s, keyAt, range, RootScan(s, key, range))
    ensures ExactScan(m, key, range, results) <==> !(KEY_MAX in m && |From(m, key)| < range)
  {
    TreeScansWell(s, m);
    results := TreeScan(s, m, key, range);
    if results == [] {
      EmptyIsExact(m, key, range);
    } else {
      FirstCollected(m, key, range, results);
      StitchedOk(s, m, keyAt, key, range, results);
      results := AppendMore(s, m, keyAt, range, results);
    }
  }

  /** One round of the loop. */
  lemma StitchRound(s: State, keyAt: Value -> Key, range: nat, results: seq<Value>, more: seq<Value>)
    requires 0 < |results| < range && 0 <= keyAt(results[|results| - 1]) < KEY_LIMIT
    requires more == RootScan(s, IncKey(keyAt(results[|results| - 1])), range - |results|)
    ensures Stitched(s, keyAt, range, results) ==
        if more == [] then results else Stitched(s, keyAt, range, results + more)
  {
  }

  method AppendMore(s: State, ghost m: map<Key, Value>, keyAt: Value -> Key, range: nat, first: seq<Value>)
    returns (results: seq<Value>)
    requires ScansWell(s, m) && Bounded(m) && PointsBack(m, keyAt)
    requires 0 < |first| <= range && AllStored(m, first)
    ensures results == Stitched(s, keyAt, range, first)
  {
    results := first;
    while |results| < range
      invariant 0 < |results| <= range && AllStored(m, results)
      invariant Stitched(s, keyAt, range, results) == Stitched(s, keyAt, range, first)
      decreases range - |results|
    {
      KeyOfStored(m, keyAt, results[|results| - 1]);
      var nextKey := IncKey(keyAt(results[|results| - 1]));
      var more := RootScan(s, nextKey, range - |results|);
      assert ScansAt(s, m, nextKey, range - |results|);
      StitchRound(s, keyAt, range, results, more);
      if more == [] {
        return;
      }
      results := results + more;
    }
  }

  function WrapTree(): State {
    State(map[0 := Cell(FRESH_WORD, Leaf([Entry(0, 10), Entry(KEY_MAX, 11)]), Span(None, None, 0))], 0, map[], [])
  }

  function WrapMap(): map<Key, Value> {
    map[0 := 10, KEY_MAX := 11]
  }

  lemma WrapTreeOk()
    ensures TreeOk(WrapTree(), WrapMap())
  {
    var s, data := WrapTree(), [Entry(0, 10), Entry(KEY_MAX, 11)];
    assert CellOk(s.cells, 0);
    var keys := KeysOf(data);
    assert keys == [0, KEY_MAX];
    forall k ensures LeafGet(data, k) == MapGet(WrapMap(), k) {
      LeafGetIff(data, k);
      assert k in keys <==> k == 0 || k == KEY_MAX;
      assert data[0] == Entry(0, 10) && data[1] == Entry(KEY_MAX, 11);
    }
  }

  lemma WrapPieces()
    ensures RootScan(WrapTree(), KEY_MAX, 2) == [11]
    ensures RootScan(WrapTree(), IncKey(KEY_MAX), 1) == [10]
  {
    var data := [Entry(0, 10), Entry(KEY_MAX, 11)];
    LowerBoundUnique(KeysOf(data), KEY_MAX, 1);
    LowerBoundUnique(KeysOf(data), 0, 0);
  }

  /** The wrap on a concrete tree: one leaf with the keys 0 and 2^64 - 1, two results asked for from
      2^64 - 1 on. The second one is the payload of key 0. */
  method WrapExample(keyAt: Value -> Key) returns (results: seq<Value>)
    requires keyAt(10) == 0 && keyAt(11) == KEY_MAX
    ensures TreeOk(WrapTree(), WrapMap())
    ensures results == [11, 10] && !ExactScan(WrapMap(), KEY_MAX, 2, results)
  {
    WrapTreeOk();
    WrapPieces();
    assert From(WrapMap(), KEY_MAX) == {KEY_MAX};
    results := Scan(WrapTree(), WrapMap(), keyAt, KEY_MAX, 2);
  }
}
