/** Leaf delta chains of the Bw-tree as immutable values: what each delta constructor records, what
    map a chain stands for, and when a chain is well formed. */
module BwChain {
  import opened Entries

  type NodeId = nat

  const INVALID: NodeId := 0
  const FIRST_LEAF: NodeId := 2
  // The low key of a split sibling carries ~INVALID_NODE_ID: only "there is a low key" matters.
  const KNOWN: NodeId := 0xFFFF_FFFF_FFFF_FFFF

  /** A key paired with a node ID; with `INVALID` the key is infinite. */
  datatype Bound = Bound(key: Key, id: NodeId)

  predicate AtLeast(k: Key, low: Bound) {
    low.id == INVALID || low.key <= k
  }

  predicate Below(k: Key, high: Bound) {
    high.id == INVALID || k < high.key
  }

  /** The index pair of a data delta: a position in the base leaf below it, and whether that
      position holds the delta's own key. */
  datatype Place = Place(at: nat, hit: bool)

  datatype Kind = Ins | Del | Upd(was: Value)

  datatype Delta = Delta(kind: Kind, key: Key, val: Value, place: Place)

  datatype Chain =
    | Leaf(items: seq<Entry>, low: Bound, high: Bound)
    | Data(delta: Delta, child: Chain)
    | Split(item: Bound, moved: nat, child: Chain)
    | Merge(item: Bound, child: Chain, right: Chain)
    | Remove(id: NodeId, child: Chain)

  function Low(c: Chain): Bound {
    if c.Leaf? then c.low else Low(c.child)
  }

  function High(c: Chain): Bound {
    match c
    case Leaf(_, _, high) => high
    case Data(_, child) => High(child)
    case Split(item, _, _) => item
    case Merge(_, _, right) => High(right)
    case Remove(_, child) => High(child)
  }

  function Depth(c: Chain): nat {
    match c
    case Leaf(_, _, _) => 0
    case Data(_, child) => Depth(child) + 1
    case Split(_, _, child) => Depth(child)
    case Merge(_, child, right) => Depth(child) + Depth(right)
    case Remove(_, child) => Depth(child)
  }

  function ItemCount(c: Chain): int {
    match c
    case Leaf(items, _, _) => |items|
    case Data(d, child) => ItemCount(child) + (match d.kind case Ins => 1 case Del => -1 case Upd(_) => 0)
    case Split(_, moved, child) => ItemCount(child) - moved
    case Merge(_, child, right) => ItemCount(child) + ItemCount(right)
    case Remove(_, child) => ItemCount(child)
  }

  predicate InRange(k: Key, c: Chain) {
    AtLeast(k, Low(c)) && Below(k, High(c))
  }

  // ----- meaning ------------------------------------------------------------------------------

  function MapOf(items: seq<Entry>): map<Key, Value> {
    map k | k in KeysOf(items) && LeafGet(items, k).Some? :: LeafGet(items, k).value
  }

  function Restrict(m: map<Key, Value>, high: Bound): map<Key, Value> {
    map k | k in m && Below(k, high) :: m[k]
  }

  function Apply(m: map<Key, Value>, d: Delta): map<Key, Value> {
    if d.kind.Del? then m - {d.key} else m[d.key := d.val]
  }

  /** The map a chain stands for: every delta applied, newest last, cut at the chain's high key. */
  function Replay(c: Chain): map<Key, Value> {
    match c
    case Leaf(items, _, _) => MapOf(items)
    case Data(d, child) => Apply(Replay(child), d)
    case Split(item, _, child) => Restrict(Replay(child), item)
    case Merge(_, child, right) => Replay(child) + Replay(right)
    case Remove(_, child) => Replay(child)
  }

  /** The base leaf a search for `k` ends in. */
  function BaseItems(c: Chain, k: Key): seq<Entry> {
    match c
    case Leaf(items, _, _) => items
    case Data(_, child) => BaseItems(child, k)
    case Split(_, _, child) => BaseItems(child, k)
    case Merge(item, child, right) => if k >= item.key then BaseItems(right, k) else BaseItems(child, k)
    case Remove(_, child) => BaseItems(child, k)
  }

  function PlaceIn(items: seq<Entry>, k: Key): Place {
    var at := LowerBound(KeysOf(items), k);
    Place(at, at < |items| && items[at].key == k)
  }

  function PlaceOf(c: Chain, k: Key): Place {
    PlaceIn(BaseItems(c, k), k)
  }

  // ----- well-formedness ----------------------------------------------------------------------

  ghost predicate Proper(low: Bound, high: Bound) {
    low.id == INVALID || high.id == INVALID || low.key < high.key
  }

  ghost predicate LeafOk(items: seq<Entry>, low: Bound, high: Bound) {
    && Sorted(KeysOf(items))
    && Proper(low, high)
    && (forall i :: 0 <= i < |items| ==> AtLeast(items[i].key, low) && Below(items[i].key, high))
  }

  /** What a data delta must say about the value it replaces: an insert adds a missing key, a delete
      or an update names the current value. */
  ghost predicate Fits(d: Delta, current: Option<Value>) {
    match d.kind
    case Ins => current == None
    case Del => current == Some(d.val)
    case Upd(was) => current == Some(was)
  }

  /** A data delta records where its key is in the branch's base leaf. Only base leaves are split, a
      merge joins two neighbours, and a remove delta never lies inside a chain. */
  ghost predicate WellFormed(c: Chain) {
    match c
    case Leaf(items, low, high) => LeafOk(items, low, high)
    case Data(d, child) =>
      && WellFormed(child) && InRange(d.key, child)
      && d.place == PlaceOf(child, d.key) && Fits(d, MapGet(Replay(child), d.key))
    case Split(item, moved, child) =>
      && child.Leaf? && WellFormed(child)
      && 0 < moved < |child.items|
      && item.key == child.items[|child.items| - moved].key && item.id != INVALID
    case Merge(item, child, right) =>
      && WellFormed(child) && WellFormed(right)
      && item == High(child) && item.id != INVALID
      && Low(right).id != INVALID && Low(right).key == item.key
    case Remove(_, _) => false
  }

  // ----- what well-formedness gives -----------------------------------------------------------

  lemma MapOfGet(items: seq<Entry>, k: Key)
    ensures MapGet(MapOf(items), k) == LeafGet(items, k)
  {
  }

  lemma {:induction false} RangeProper(c: Chain)
    requires WellFormed(c)
    ensures Proper(Low(c), High(c))
  {
    match c
    case Leaf(_, _, _) =>
    case Data(_, child) =>
      RangeProper(child);
    case Split(item, moved, child) =>
      assert KeysOf(child.items)[0] < KeysOf(child.items)[|child.items| - moved];
    case Merge(_, child, right) =>
      RangeProper(child);
      RangeProper(right);
  }

  /** A chain holds keys of its own range only. */
  lemma {:induction false} ReplayInRange(c: Chain, k: Key)
    requires WellFormed(c) && k in Replay(c)
    ensures InRange(k, c)
  {
    match c
    case Leaf(items, _, _) =>
      LeafGetIff(items, k);
    case Data(d, child) =>
      if k in Replay(child) {
        ReplayInRange(child, k);
      }
    case Split(item, moved, child) =>
      ReplayInRange(child, k);
    case Merge(_, child, right) =>
      RangeProper(child);
      RangeProper(right);
      if k in Replay(right) {
        ReplayInRange(right, k);
      } else {
        ReplayInRange(child, k);
      }
  }

  /** What is left of a sorted run when it is cut at position `n`. */
  lemma CutGet(items: seq<Entry>, n: nat, k: Key)
    requires Sorted(KeysOf(items)) && n < |items|
    ensures Sorted(KeysOf(items[..n]))
    ensures LeafGet(items[..n], k) == if k < items[n].key then LeafGet(items, k) else None
  {
    var l := items[..n];
    assert KeysOf(l) == KeysOf(items)[..n];
    LeafGetIff(items, k);
    LeafGetIff(l, k);
    if k in KeysOf(items) {
      var i :| 0 <= i < |items| && items[i].key == k;
      if i < n {
        assert l[i] == items[i];
      }
    }
  }

  lemma LastGet(items: seq<Entry>, k: Key)
    requires Sorted(KeysOf(items)) && items != []
    requires items[|items| - 1].key <= k
    ensures LeafGet(items, k) == if k == items[|items| - 1].key then Some(items[|items| - 1].val) else None
  {
    LeafGetIff(items, k);
  }

  /** A sorted run has as many entries as the map it lists. */
  lemma {:induction false} SizeOfMap(items: seq<Entry>, m: map<Key, Value>)
    requires Sorted(KeysOf(items))
    requires forall k :: MapGet(m, k) == LeafGet(items, k)
    ensures |items| == |m|
    decreases |items|
  {
    if items == [] {
      forall k ensures k !in m { assert MapGet(m, k) == LeafGet(items, k); }
      assert m == map[];
    } else {
      var n := |items| - 1;
      var last := items[n].key;
      var rest := m - {last};
      CutGet(items, n, last);
      forall k
        ensures MapGet(rest, k) == LeafGet(items[..n], k)
      {
        assert MapGet(m, k) == LeafGet(items, k);
        CutGet(items, n, k);
        if last <= k { LastGet(items, k); }
      }
      SizeOfMap(items[..n], rest);
      assert MapGet(m, last) == LeafGet(items, last);
      LastGet(items, last);
      assert m == rest[last := m[last]];
    }
  }

  lemma DisjointSize(a: map<Key, Value>, b: map<Key, Value>)
    requires a.Keys !! b.Keys
    ensures |a + b| == |a| + |b|
  {
    assert (a + b).Keys == a.Keys + b.Keys;
    assert |a.Keys + b.Keys| == |a.Keys| + |b.Keys|;
    assert |(a + b).Keys| == |a + b| && |a.Keys| == |a| && |b.Keys| == |b|;
  }

  lemma ApplySize(m: map<Key, Value>, d: Delta)
    requires Fits(d, MapGet(m, d.key))
    ensures |Apply(m, d)| == |m| + (match d.kind case Ins => 1 case Del => -1 case Upd(_) => 0)
  {
    var r := Apply(m, d);
    match d.kind
    case Ins =>
    case Del =>
      assert m == r[d.key := d.val];
    case Upd(_) =>
      assert r.Keys == m.Keys;
      assert |r.Keys| == |r| && |m.Keys| == |m|;
  }

  lemma CountLeaf(items: seq<Entry>)
    requires Sorted(KeysOf(items))
    ensures |MapOf(items)| == |items|
  {
    forall k ensures MapGet(MapOf(items), k) == LeafGet(items, k) { MapOfGet(items, k); }
    SizeOfMap(items, MapOf(items));
  }

  lemma CountCut(items: seq<Entry>, n: nat, high: Bound)
    requires Sorted(KeysOf(items)) && n < |items| && high.id != INVALID && high.key == items[n].key
    ensures |Restrict(MapOf(items), high)| == n
  {
    CutGet(items, n, 0);
    forall k ensures MapGet(Restrict(MapOf(items), high), k) == LeafGet(items[..n], k) {
      MapOfGet(items, k);
      CutGet(items, n, k);
    }
    SizeOfMap(items[..n], Restrict(MapOf(items), high));
  }

  /** The item count carried by the deltas is the size of the map the chain stands for. */
  lemma {:induction false} CountExact(c: Chain)
    requires WellFormed(c)
    ensures ItemCount(c) == |Replay(c)|
  {
    match c
    case Leaf(items, _, _) =>
      CountLeaf(items);
    case Data(d, child) =>
      CountExact(child);
      ApplySize(Replay(child), d);
    case Split(item, moved, child) =>
      CountCut(child.items, |child.items| - moved, item);
    case Merge(_, child, right) =>
      CountExact(child);
      CountExact(right);
      BranchesApart(c);
      DisjointSize(Replay(child), Replay(right));
  }

  /** The two branches of a merge share no key. */
  lemma BranchesApart(c: Chain)
    requires WellFormed(c) && c.Merge?
    ensures forall k :: k in Replay(c.child) ==> k < c.item.key
    ensures forall k :: k in Replay(c.right) ==> k >= c.item.key
  {
    forall k | k in Replay(c.child) ensures k < c.item.key { ReplayInRange(c.child, k); }
    forall k | k in Replay(c.right) ensures k >= c.item.key { ReplayInRange(c.right, k); }
  }
}
