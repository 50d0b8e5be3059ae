/** Point search on a leaf delta chain, with the index shortcuts, and the deltas that Insert, Upsert
    and Delete post from what it finds. */
module BwSearch {
  import opened Entries
  import opened BwChain

  /** The chain is a list of deltas over one base leaf. */
  predicate Linear(c: Chain) {
    c.Leaf? || (!c.Merge? && Linear(c.child))
  }

  lemma {:induction false} OneBase(c: Chain, j: Key, k: Key)
    requires Linear(c)
    ensures BaseItems(c, j) == BaseItems(c, k)
  {
    if !c.Leaf? {
      OneBase(c.child, j, k);
    }
  }

  lemma {:induction false} BaseSorted(c: Chain, k: Key)
    requires WellFormed(c)
    ensures Sorted(KeysOf(BaseItems(c, k)))
  {
    match c
    case Leaf(_, _, _) =>
    case Data(_, child) => BaseSorted(child, k);
    case Split(_, _, child) => BaseSorted(child, k);
    case Merge(item, child, right) =>
      BaseSorted(child, k);
      BaseSorted(right, k);
  }

  /** The part of a chain a search for `k` goes on with after one delta that does not answer it. */
  function Onward(c: Chain, k: Key): Chain
    requires !c.Leaf?
  {
    if c.Merge? && k >= c.item.key then c.right else c.child
  }

  lemma OnwardKeeps(c: Chain, k: Key)
    requires WellFormed(c) && InRange(k, c) && !c.Leaf?
    requires c.Data? ==> c.delta.key != k
    ensures WellFormed(Onward(c, k)) && InRange(k, Onward(c, k))
    ensures MapGet(Replay(Onward(c, k)), k) == MapGet(Replay(c), k)
    ensures PlaceOf(Onward(c, k), k) == PlaceOf(c, k)
  {
    match c
    case Data(_, _) =>
    case Split(_, _, child) =>
      assert KeysOf(child.items)[|child.items| - c.moved] == c.item.key;
    case Merge(_, _, _) => BranchesApart(c);
  }

  /** The window `start..end` of base positions (`end` is -1 for the whole leaf) still holds the lower
      bound of `k`. A window says nothing until the search is past the last merge delta. */
  ghost predicate Window(c: Chain, k: Key, start: int, end: int) {
    Linear(c) ==>
      && 0 <= start <= PlaceOf(c, k).at
      && (end == -1 || PlaceOf(c, k).at <= end <= |BaseItems(c, k)|)
  }

  lemma Narrow(c: Chain, k: Key, start: int, end: int)
    requires WellFormed(c) && c.Data? && c.delta.key != k && Window(c, k, start, end)
    ensures k > c.delta.key ==> Window(c.child, k, c.delta.place.at, end)
    ensures k < c.delta.key ==> Window(c.child, k, start, c.delta.place.at)
  {
    if Linear(c) {
      OneBase(c.child, c.delta.key, k);
    }
  }

  function LowerBoundBetween(items: seq<Entry>, start: nat, end: nat, k: Key): nat
    requires start <= end <= |items|
  {
    start + LowerBound(KeysOf(items[start..end]), k)
  }

  /** Searching a window that holds the lower bound finds it. */
  lemma WindowSearch(items: seq<Entry>, start: nat, end: nat, k: Key)
    requires Sorted(KeysOf(items))
    requires start <= LowerBound(KeysOf(items), k) <= end <= |items|
    ensures LowerBoundBetween(items, start, end, k) == LowerBound(KeysOf(items), k)
  {
    var keys, pos := KeysOf(items), LowerBound(KeysOf(items), k);
    var part := KeysOf(items[start..end]);
    assert forall i :: 0 <= i < |part| ==> part[i] == keys[start + i];
    LowerBoundUnique(part, k, pos - start);
  }

  lemma LeafSearch(c: Chain, k: Key, start: int, end: int)
    requires WellFormed(c) && c.Leaf? && Window(c, k, start, end)
    ensures 0 <= start <= (if end == -1 then |c.items| else end) <= |c.items|
    ensures LowerBoundBetween(c.items, start, if end == -1 then |c.items| else end, k) == PlaceOf(c, k).at
    ensures MapGet(Replay(c), k) ==
            if PlaceOf(c, k).hit then Some(c.items[PlaceOf(c, k).at].val) else None
  {
    assert Linear(c);
    WindowSearch(c.items, start, if end == -1 then |c.items| else end, k);
    MapOfGet(c.items, k);
  }

  /** NavigateLeafNode as Insert, Upsert and Delete use it: the key's current value, and its position
      in the base leaf of its branch. */
  method Navigate(c: Chain, k: Key) returns (found: Option<Value>, place: Place)
    requires WellFormed(c) && InRange(k, c)
    ensures found == MapGet(Replay(c), k)
    ensures place == PlaceOf(c, k)
  {
    var n: Chain, start: int, end: int := c, 0, -1;
    while !n.Leaf?
      invariant WellFormed(n) && InRange(k, n)
      invariant MapGet(Replay(n), k) == MapGet(Replay(c), k)
      invariant PlaceOf(n, k) == PlaceOf(c, k)
      invariant Window(n, k, start, end)
      decreases n
    {
      if n.Data? && n.delta.key == k {
        return if n.delta.kind.Del? then None else Some(n.delta.val), n.delta.place;
      }
      OnwardKeeps(n, k);
      match n
      case Data(d, child) =>
        Narrow(n, k, start, end);
        if k > d.key {
          start := d.place.at;
        } else {
          end := d.place.at;
        }
        n := child;
      case Split(_, _, child) =>
        n := child;
      case Merge(item, left, right) =>
        n := if k >= item.key then right else left;
        start, end := 0, -1;
    }
    LeafSearch(n, k, start, end);
    var at := LowerBoundBetween(n.items, start, if end == -1 then |n.items| else end, k);
    if at != |n.items| && n.items[at].key == k {
      return Some(n.items[at].val), Place(at, true);
    }
    return None, Place(at, false);
  }

  /** NavigateLeafNode as GetValue uses it: the list of values of the key. */
  method CollectValues(c: Chain, k: Key) returns (values: seq<Value>)
    requires WellFormed(c) && InRange(k, c)
    ensures values == if k in Replay(c) then [Replay(c)[k]] else []
  {
    var n: Chain, start: int, end: int := c, 0, -1;
    while !n.Leaf?
      invariant WellFormed(n) && InRange(k, n)
      invariant MapGet(Replay(n), k) == MapGet(Replay(c), k)
      invariant Window(n, k, start, end)
      decreases n
    {
      if n.Data? && n.delta.key == k {
        return if n.delta.kind.Del? then [] else [n.delta.val];
      }
      OnwardKeeps(n, k);
      match n
      case Data(d, child) =>
        Narrow(n, k, start, end);
        if k > d.key {
          start := d.place.at;
        } else {
          end := d.place.at;
        }
        n := child;
      case Split(_, _, child) =>
        n := child;
      case Merge(item, left, right) =>
        n := if k >= item.key then right else left;
        start, end := 0, -1;
    }
    LeafSearch(n, k, start, end);
    var at := LowerBoundBetween(n.items, start, if end == -1 then |n.items| else end, k);
    return if at != |n.items| && n.items[at].key == k then [n.items[at].val] else [];
  }

  // ----- the deltas posted --------------------------------------------------------------------

  datatype Op = InsertOp(key: Key, val: Value) | UpsertOp(key: Key, val: Value) | DeleteOp(key: Key)

  /** The operation on a map, and what it returns. */
  function Perform(m: map<Key, Value>, op: Op): (map<Key, Value>, bool) {
    match op
    case InsertOp(k, v) => if k in m then (m, false) else (m[k := v], true)
    case UpsertOp(k, v) => (m[k := v], k !in m)
    case DeleteOp(k) => if k in m then (m - {k}, true) else (m, false)
  }

  /** The delta an operation posts when the key has value `current`; none if it returns false. */
  function DeltaFor(op: Op, current: Option<Value>, place: Place): Option<Delta> {
    match op
    case InsertOp(k, v) => if current.Some? then None else Some(Delta(Ins, k, v, place))
    case UpsertOp(k, v) => Some(Delta(if current.Some? then Upd(current.value) else Ins, k, v, place))
    case DeleteOp(k) => if current.Some? then Some(Delta(Del, k, current.value, place)) else None
  }

  /** Posting on the chain that was searched keeps it well formed and performs the operation. */
  lemma PostKeeps(c: Chain, op: Op)
    requires WellFormed(c) && InRange(op.key, c)
    ensures var d := DeltaFor(op, MapGet(Replay(c), op.key), PlaceOf(c, op.key));
            match d {
              case Some(d) => WellFormed(Data(d, c)) && Replay(Data(d, c)) == Perform(Replay(c), op).0
              case None => Perform(Replay(c), op) == (Replay(c), false)
            }
  {
  }

  /** One round of Insert, Upsert or Delete up to its CAS: search, then build the delta. */
  method Prepare(c: Chain, op: Op) returns (next: Option<Chain>, result: bool)
    requires WellFormed(c) && InRange(op.key, c)
    ensures result == Perform(Replay(c), op).1
    ensures next.Some? ==> WellFormed(next.value) && next.value.Data? && next.value.child == c
    ensures next.Some? ==> Replay(next.value) == Perform(Replay(c), op).0
    ensures next.None? ==> Replay(c) == Perform(Replay(c), op).0
  {
    var found, place := Navigate(c, op.key);
    PostKeeps(c, op);
    var d := DeltaFor(op, found, place);
    match d
    case None => return None, false;
    case Some(delta) => return Some(Data(delta, c)), op.DeleteOp? || found.None?;
  }
}
