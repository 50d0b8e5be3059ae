/** Inner delta chains of the Bw-tree: what separators a chain stands for, and the search that routes a
    key to a child with early exits and index shortcuts. */
module BwInner {
  import opened Entries
  import opened BwChain

  /** `lowest` is the low key (none: minus infinity) and `first` the child below all separators: the two
      halves of the first item of an inner node, whose key is only a placeholder on the left edge. The
      separators `seps` are the other items; their values are node IDs. `depth` is what the chain above
      counts from. */
  datatype Inner =
    | Base(lowest: Option<Key>, first: NodeId, seps: seq<Entry>, high: Bound, depth: nat)
    | Add(item: Bound, next: Bound, at: nat, child: Inner)
    | Drop(item: Bound, prev: Bound, next: Bound, at: nat, child: Inner)
    | Cut(item: Bound, child: Inner)
    | Join(item: Bound, child: Inner, right: Inner)

  function Lowest(c: Inner): Option<Key> {
    if c.Base? then c.lowest else Lowest(c.child)
  }

  function First(c: Inner): NodeId {
    if c.Base? then c.first else First(c.child)
  }

  function Upper(c: Inner): Bound {
    match c
    case Base(_, _, _, high, _) => high
    case Add(_, _, _, child) => Upper(child)
    case Drop(_, _, _, _, child) => Upper(child)
    case Cut(item, _) => item
    case Join(_, _, right) => Upper(right)
  }

  /** The depth each delta carries: index deltas add one, a merge delta adds up its two branches. */
  function Depth(c: Inner): nat {
    match c
    case Base(_, _, _, _, depth) => depth
    case Add(_, _, _, child) => Depth(child) + 1
    case Drop(_, _, _, _, child) => Depth(child) + 1
    case Cut(_, child) => Depth(child)
    case Join(_, child, right) => Depth(child) + Depth(right)
  }

  predicate From(k: Key, lowest: Option<Key>) {
    lowest.None? || lowest.value <= k
  }

  predicate Past(k: Key, lowest: Option<Key>) {
    lowest.None? || lowest.value < k
  }

  predicate Within(k: Key, c: Inner) {
    From(k, Lowest(c)) && Below(k, Upper(c))
  }

  /** The separators a chain stands for, all deltas applied, and the child to the right of each. */
  function Seps(c: Inner): map<Key, Value> {
    match c
    case Base(_, _, seps, _, _) => MapOf(seps)
    case Add(item, _, _, child) => Seps(child)[item.key := item.id]
    case Drop(item, _, _, _, child) => Seps(child) - {item.key}
    case Cut(item, child) => Restrict(Seps(child), item)
    case Join(item, child, right) => Seps(child) + Seps(right)[item.key := First(right)]
  }

  /** `s` is the last separator not above `k`. */
  ghost predicate LastUpTo(m: map<Key, Value>, k: Key, s: Key) {
    s in m && s <= k && (forall x :: x in m && x <= k ==> x <= s)
  }

  /** The child for key `k`: that of the last separator not above `k`, or the first child. */
  ghost predicate Routes(m: map<Key, Value>, first: NodeId, k: Key, id: Value) {
    || (exists s :: LastUpTo(m, k, s) && m[s] == id)
    || ((forall x :: x in m ==> k < x) && id == first)
  }

  lemma RouteUnique(m: map<Key, Value>, first: NodeId, k: Key, a: Value, b: Value)
    requires Routes(m, first, k, a) && Routes(m, first, k, b)
    ensures a == b
  {
    if s, t :| LastUpTo(m, k, s) && m[s] == a && LastUpTo(m, k, t) && m[t] == b {
      assert s == t;
    }
  }

  // ----- well-formedness ----------------------------------------------------------------------

  /** The separator after `k`, or the high key if there is none; an invalid ID stands for infinity. */
  ghost predicate IsNext(m: map<Key, Value>, high: Bound, k: Key, next: Bound) {
    if next.id == INVALID then high.id == INVALID && (forall x :: x in m ==> x <= k)
    else
      && k < next.key && (forall x :: x in m && k < x ==> next.key <= x)
      && (next.key in m || (high.id != INVALID && next.key == high.key))
  }

  /** The separator before `k` with its child, or the first child if there is none. */
  ghost predicate IsPrev(m: map<Key, Value>, first: NodeId, k: Key, prev: Bound) {
    if prev.id == first then forall x :: x in m ==> k <= x
    else
      && prev.key in m && m[prev.key] == prev.id && prev.key < k
      && (forall x :: x in m && x < k ==> x <= prev.key)
  }

  predicate Straight(c: Inner) {
    c.Base? || (!c.Join? && Straight(c.child))
  }

  function BaseSeps(c: Inner): seq<Entry> {
    if c.Base? then c.seps else BaseSeps(c.child)
  }

  /** The index of `k` among the items of the base node: one more than among its separators. */
  ghost predicate Located(c: Inner, k: Key, at: nat) {
    Straight(c) ==> at == 1 + LowerBound(KeysOf(BaseSeps(c)), k)
  }

  /** Node IDs are unique: no separator leads to the first child. */
  ghost predicate Apart(m: map<Key, Value>, first: NodeId) {
    forall x :: x in m ==> m[x] != first
  }

  /** All node IDs that occur in a chain, dropped ones included. */
  function Ids(c: Inner): set<Value> {
    match c
    case Base(_, first, seps, _, _) => {first} + set i | 0 <= i < |seps| :: seps[i].val
    case Add(item, _, _, child) => Ids(child) + {item.id}
    case Drop(_, _, _, _, child) => Ids(child)
    case Cut(_, child) => Ids(child)
    case Join(_, child, right) => Ids(child) + Ids(right)
  }

  ghost predicate Good(c: Inner)
  {
    && Apart(Seps(c), First(c))
    && match c
       case Base(lowest, _, seps, high, _) =>
         && Sorted(KeysOf(seps)) && (high.id != INVALID ==> Past(high.key, lowest))
         && (forall i :: 0 <= i < |seps| ==> Past(seps[i].key, lowest) && Below(seps[i].key, high))
       case Add(item, next, at, child) =>
         && Good(child) && Past(item.key, Lowest(child)) && Below(item.key, Upper(child))
         && item.key !in Seps(child) && IsNext(Seps(child), Upper(child), item.key, next)
         && Located(child, item.key, at)
       case Drop(item, prev, next, at, child) =>
         && Good(child) && MapGet(Seps(child), item.key) == Some(item.id)
         && IsPrev(Seps(child), First(child), item.key, prev)
         && IsNext(Seps(child), Upper(child), item.key, next) && Located(child, item.key, at)
       case Cut(item, child) =>
         child.Base? && Good(child) && item.id != INVALID && item.key in Seps(child)
       case Join(item, child, right) =>
         && Good(child) && Good(right) && Upper(child) == item && item.id != INVALID && Lowest(right) == Some(item.key)
         && First(child) !in Ids(right)
  }

  lemma {:induction false} SepsWithin(c: Inner, x: Key)
    requires Good(c) && x in Seps(c)
    ensures Past(x, Lowest(c)) && Below(x, Upper(c))
  {
    match c
    case Base(_, _, seps, _, _) => LeafGetIff(seps, x);
    case Add(item, _, _, child) => if x != item.key { SepsWithin(child, x); }
    case Drop(_, _, _, _, child) => SepsWithin(child, x);
    case Cut(_, child) => SepsWithin(child, x);
    case Join(item, child, right) =>
      JoinRange(c);
      if x in Seps(right) { SepsWithin(right, x); } else if x != item.key { SepsWithin(child, x); }
  }

  /** The range of a node is not empty. */
  lemma {:induction false} RangeGood(c: Inner)
    requires Good(c)
    ensures Upper(c).id != INVALID ==> Past(Upper(c).key, Lowest(c))
  {
    match c
    case Base(_, _, _, _, _) =>
    case Add(_, _, _, child) => RangeGood(child);
    case Drop(_, _, _, _, child) => RangeGood(child);
    case Cut(item, child) => LeafGetIff(child.seps, item.key);
    case Join(_, child, right) =>
      RangeGood(child);
      RangeGood(right);
  }

  /** The two halves of a merged node lie on either side of the merge key. */
  lemma JoinRange(c: Inner)
    requires Good(c) && c.Join?
    ensures Past(c.item.key, Lowest(c.child)) && Below(c.item.key, Upper(c.right))
  {
    RangeGood(c.child);
    RangeGood(c.right);
  }

  // ----- routing ------------------------------------------------------------------------------

  /** Two maps that agree from some separator `lo` of the first up to `k` route `k` alike. */
  lemma SameRoute(m: map<Key, Value>, m': map<Key, Value>, first: NodeId, k: Key, lo: Option<Key>, id: Value)
    requires forall x :: x <= k && From(x, lo) ==> MapGet(m, x) == MapGet(m', x)
    requires lo.Some? ==> lo.value in m && lo.value <= k
    requires Routes(m, first, k, id)
    ensures Routes(m', first, k, id)
  {
    forall x | x <= k && From(x, lo) ensures x in m <==> x in m' { assert MapGet(m, x) == MapGet(m', x); }
    if s :| LastUpTo(m, k, s) && m[s] == id {
      assert From(s, lo);
      assert MapGet(m, s) == MapGet(m', s);
      forall x | x in m' && x <= k ensures x <= s {
        if From(x, lo) { assert x in m; }
      }
      assert LastUpTo(m', k, s);
    } else {
      assert lo.None?;
      forall x | x <= k ensures x !in m' { assert MapGet(m, x) == MapGet(m', x); }
    }
  }

  /** An insert delta answers for keys between its own and the next separator. */
  lemma AddAnswers(c: Inner, k: Key)
    requires Good(c) && c.Add? && c.item.key <= k && (c.next.id == INVALID || k < c.next.key)
    ensures Routes(Seps(c), First(c), k, c.item.id)
  {
    assert LastUpTo(Seps(c), k, c.item.key);
  }

  lemma AddPasses(c: Inner, k: Key, id: Value)
    requires Good(c) && c.Add? && Within(k, c)
    requires !(c.item.key <= k && (c.next.id == INVALID || k < c.next.key))
    requires Routes(Seps(c.child), First(c.child), k, id)
    ensures Routes(Seps(c), First(c), k, id)
  {
    var m := Seps(c.child);
    if k < c.item.key {
      SameRoute(m, Seps(c), First(c), k, None, id);
    } else {
      SameRoute(m, Seps(c), First(c), k, Some(c.next.key), id);
    }
  }

  /** A delete delta answers for keys between the neighbours of the deleted separator. */
  lemma DropAnswers(c: Inner, k: Key)
    requires Good(c) && c.Drop? && (c.prev.id == First(c) || c.prev.key <= k)
    requires (c.next.id == INVALID || k < c.next.key)
    requires c.prev.id == First(c) ==> From(k, Lowest(c))
    ensures Routes(Seps(c), First(c), k, c.prev.id)
  {
    var m := Seps(c);
    if c.prev.id == First(c) {
      forall x | x in m ensures k < x {
        assert x in Seps(c.child) && x != c.item.key;
      }
    } else {
      assert c.prev.key in m;
      assert LastUpTo(m, k, c.prev.key);
    }
  }

  lemma DropPasses(c: Inner, k: Key, id: Value)
    requires Good(c) && c.Drop? && Within(k, c)
    requires !((c.prev.id == First(c) || c.prev.key <= k) && (c.next.id == INVALID || k < c.next.key))
    requires Routes(Seps(c.child), First(c.child), k, id)
    ensures Routes(Seps(c), First(c), k, id)
  {
    if c.prev.id != First(c) && k < c.prev.key {
      LessRoute(Seps(c.child), c.item.key, First(c), k, None, id);
    } else {
      LessRoute(Seps(c.child), c.item.key, First(c), k, Some(c.next.key), id);
    }
  }

  /** Taking out a separator that is not among those from `lo` up to `k` keeps the route. */
  lemma LessRoute(m: map<Key, Value>, gone: Key, first: NodeId, k: Key, lo: Option<Key>, id: Value)
    requires k < gone || !From(gone, lo)
    requires (lo.Some? ==> lo.value in m && lo.value <= k) && Routes(m, first, k, id)
    ensures Routes(m - {gone}, first, k, id)
  {
    SameRoute(m, m - {gone}, first, k, lo, id);
  }

  lemma CutPasses(c: Inner, k: Key, id: Value)
    requires Good(c) && c.Cut? && Within(k, c) && Routes(Seps(c.child), First(c.child), k, id)
    ensures Routes(Seps(c), First(c), k, id)
  {
    SameRoute(Seps(c.child), Seps(c), First(c), k, None, id);
  }

  lemma JoinLeft(c: Inner, k: Key, id: Value)
    requires Good(c) && c.Join? && k < c.item.key && Routes(Seps(c.child), First(c.child), k, id)
    ensures Routes(Seps(c), First(c), k, id)
  {
    forall x | x in Seps(c.right) ensures c.item.key < x { SepsWithin(c.right, x); }
    SameRoute(Seps(c.child), Seps(c), First(c), k, None, id);
  }

  lemma JoinRight(c: Inner, k: Key, id: Value)
    requires Good(c) && c.Join? && c.item.key <= k && Routes(Seps(c.right), First(c.right), k, id)
    ensures Routes(Seps(c), First(c), k, id)
  {
    forall x | x in Seps(c.right) ensures c.item.key < x { SepsWithin(c.right, x); }
    forall x | x in Seps(c.child) ensures x < c.item.key { SepsWithin(c.child, x); }
    RightRoute(Seps(c.child), Seps(c.right), First(c), First(c.right), c.item.key, k, id);
  }

  lemma RightRoute(l: map<Key, Value>, r: map<Key, Value>, first: NodeId, middle: NodeId, at: Key, k: Key, id: Value)
    requires (forall x :: x in l ==> x < at) && (forall x :: x in r ==> at < x) && at <= k
    requires Routes(r, middle, k, id)
    ensures Routes(l + r[at := middle], first, k, id)
  {
    var m := l + r[at := middle];
    if s :| LastUpTo(r, k, s) && r[s] == id {
      assert LastUpTo(m, k, s);
    } else {
      assert LastUpTo(m, k, at);
    }
  }

  // ----- the search ---------------------------------------------------------------------------

  predicate IsUpperBound(keys: seq<Key>, k: Key, pos: nat) {
    pos <= |keys| && (forall i :: 0 <= i < pos ==> keys[i] <= k) && (pos < |keys| ==> k < keys[pos])
  }

  lemma UpperBoundExists(keys: seq<Key>, k: Key)
    ensures exists pos: nat :: IsUpperBound(keys, k, pos)
  {
    assert IsUpperBound(keys, k, SeekFrom(keys, k + 1, 0));
  }

  /** The first position whose key is above `k`. */
  function UpperBound(keys: seq<Key>, k: Key): (pos: nat)
    ensures pos <= |keys|
    ensures forall i :: 0 <= i < pos ==> keys[i] <= k
    ensures pos < |keys| ==> k < keys[pos]
  {
    UpperBoundExists(keys, k);
    var pos: nat :| IsUpperBound(keys, k, pos);
    pos
  }

  /** The number of items of the base node that do not lie above `k`: its first item always counts. */
  function Reach(c: Inner, k: Key): nat {
    1 + UpperBound(KeysOf(BaseSeps(c)), k)
  }

  /** The window `start..end` of item positions still holds the end of the items up to `k`. */
  ghost predicate Window(c: Inner, k: Key, start: int, end: int) {
    Straight(c) ==> 1 <= start <= Reach(c, k) <= end <= 1 + |BaseSeps(c)|
  }

  lemma NarrowInner(c: Inner, key: Key, at: nat, k: Key, start: int, end: int)
    requires Located(c, key, at) && Window(c, k, start, end) && (Straight(c) ==> Sorted(KeysOf(BaseSeps(c))))
    ensures key <= k ==> Window(c, k, if start < at then at else start, end)
    ensures k < key ==> Window(c, k, start, if at < end then at else end)
  {
  }

  lemma {:induction false} BaseSorted(c: Inner)
    requires Good(c)
    ensures Sorted(KeysOf(BaseSeps(c)))
  {
    if !c.Base? {
      BaseSorted(c.child);
    }
  }

  /** `UpperBound` over the item positions `start..end` of a base node, less one: the child to go to. */
  function Locate(seps: seq<Entry>, first: NodeId, k: Key, start: nat, end: nat): Value
    requires 1 <= start <= end <= 1 + |seps|
  {
    ItemAt(seps, first, start + UpperBound(KeysOf(seps[start - 1..end - 1]), k) - 1)
  }

  /** The child stored with item `i` of a base node. */
  function ItemAt(seps: seq<Entry>, first: NodeId, i: nat): Value
    requires i <= |seps|
  {
    if i == 0 then first else seps[i - 1].val
  }

  lemma IndexOf(seps: seq<Entry>, x: Key) returns (i: nat)
    requires Sorted(KeysOf(seps)) && x in MapOf(seps)
    ensures i < |seps| && seps[i].key == x
  {
    LeafGetIff(seps, x);
    i :| 0 <= i < |seps| && KeysOf(seps)[i] == x;
  }

  lemma AtIndex(seps: seq<Entry>, i: nat)
    requires Sorted(KeysOf(seps)) && i < |seps|
    ensures seps[i].key in MapOf(seps) && MapOf(seps)[seps[i].key] == seps[i].val
  {
    LeafGetIff(seps, seps[i].key);
    assert KeysOf(seps)[i] == seps[i].key;
    MapOfGet(seps, seps[i].key);
  }

  /** In a sorted run of separators the child for `k` stands just before the upper bound. */
  lemma UpperRoutes(seps: seq<Entry>, first: NodeId, k: Key, u: nat)
    requires Sorted(KeysOf(seps)) && u == UpperBound(KeysOf(seps), k)
    ensures Routes(MapOf(seps), first, k, ItemAt(seps, first, u))
  {
    var m := MapOf(seps);
    forall x | x in m && x <= k ensures u > 0 && x <= seps[u - 1].key {
      var i := IndexOf(seps, x);
      BeforeUpper(KeysOf(seps), k, u, i);
    }
    if u > 0 {
      AtIndex(seps, u - 1);
      assert KeysOf(seps)[u - 1] == seps[u - 1].key;
      assert LastUpTo(m, k, seps[u - 1].key);
    }
  }

  lemma BeforeUpper(keys: seq<Key>, k: Key, u: nat, i: nat)
    requires Sorted(keys) && u == UpperBound(keys, k) && i < |keys| && keys[i] <= k
    ensures i < u && keys[i] <= keys[u - 1]
  {
  }

  lemma WindowUpper(seps: seq<Entry>, k: Key, start: nat, end: nat)
    requires Sorted(KeysOf(seps)) && 1 <= start <= 1 + UpperBound(KeysOf(seps), k) <= end <= 1 + |seps|
    ensures start + UpperBound(KeysOf(seps[start - 1..end - 1]), k) == 1 + UpperBound(KeysOf(seps), k)
  {
    assert KeysOf(seps[start - 1..end - 1]) == KeysOf(seps)[start - 1..end - 1];
    UpperPart(KeysOf(seps), k, start - 1, end - 1);
  }

  lemma UpperPart(keys: seq<Key>, k: Key, from: nat, to: nat)
    requires Sorted(keys) && from <= UpperBound(keys, k) <= to <= |keys|
    ensures UpperBound(keys[from..to], k) == UpperBound(keys, k) - from
  {
    var u, part := UpperBound(keys, k), keys[from..to];
    assert u > from ==> part[u - from - 1] == keys[u - 1];
    assert u < to ==> part[u - from] == keys[u];
    UpperUnique(part, k, u - from);
  }

  lemma WindowBase(c: Inner, k: Key, start: int, end: int)
    requires c.Base? && Window(c, k, start, end)
    ensures 1 <= start <= 1 + UpperBound(KeysOf(c.seps), k) <= end <= 1 + |c.seps|
    ensures Seps(c) == MapOf(c.seps) && First(c) == c.first
  {
    assert Straight(c) && BaseSeps(c) == c.seps;
  }

  lemma LocateAt(seps: seq<Entry>, first: NodeId, k: Key, start: nat, end: nat)
    requires Sorted(KeysOf(seps)) && 1 <= start <= 1 + UpperBound(KeysOf(seps), k) <= end <= 1 + |seps|
    ensures Routes(MapOf(seps), first, k, Locate(seps, first, k, start, end))
  {
    LocateIs(seps, first, k, start, end);
    UpperRoutes(seps, first, k, UpperBound(KeysOf(seps), k));
  }

  lemma LocateIs(seps: seq<Entry>, first: NodeId, k: Key, start: nat, end: nat)
    requires Sorted(KeysOf(seps)) && 1 <= start <= 1 + UpperBound(KeysOf(seps), k) <= end <= 1 + |seps|
    ensures Locate(seps, first, k, start, end) == ItemAt(seps, first, UpperBound(KeysOf(seps), k))
  {
    WindowUpper(seps, k, start, end);
  }

  lemma UpperUnique(keys: seq<Key>, k: Key, pos: nat)
    requires Sorted(keys) && pos <= |keys|
    requires pos > 0 ==> keys[pos - 1] <= k
    requires pos < |keys| ==> k < keys[pos]
    ensures pos == UpperBound(keys, k)
  {
  }

  /** The delta itself knows the child for `k`. */
  predicate Answers(c: Inner, k: Key) {
    match c
    case Add(item, next, _, _) => item.key <= k && (next.id == INVALID || k < next.key)
    case Drop(_, prev, next, _, _) => (prev.id == First(c) || prev.key <= k) && (next.id == INVALID || k < next.key)
    case _ => false
  }

  function Onward(c: Inner, k: Key): Inner
    requires !c.Base?
  {
    if c.Join? && c.item.key <= k then c.right else c.child
  }

  /** A route of `n` for `k` is a route of `c`. */
  ghost predicate Leads(n: Inner, c: Inner, k: Key) {
    forall x :: Routes(Seps(n), First(n), k, x) ==> Routes(Seps(c), First(c), k, x)
  }

  lemma Passes(c: Inner, k: Key)
    requires Good(c) && Within(k, c) && !c.Base? && !Answers(c, k)
    ensures Good(Onward(c, k)) && Within(k, Onward(c, k)) && Leads(Onward(c, k), c, k)
  {
    var n := Onward(c, k);
    forall x | Routes(Seps(n), First(n), k, x) ensures Routes(Seps(c), First(c), k, x) {
      match c
      case Add(_, _, _, _) => AddPasses(c, k, x);
      case Drop(_, _, _, _, _) => DropPasses(c, k, x);
      case Cut(_, _) => CutPasses(c, k, x);
      case Join(_, _, _) => if c.item.key <= k { JoinRight(c, k, x); } else { JoinLeft(c, k, x); }
    }
    if c.Cut? { SepsWithin(c.child, c.item.key); }
  }

  lemma LeadsOn(n: Inner, m: Inner, c: Inner, k: Key)
    requires Leads(n, m, k) && Leads(m, c, k)
    ensures Leads(n, c, k)
  {
  }

  lemma WindowWhole(c: Inner, k: Key)
    ensures Window(c, k, 1, 1 + |BaseSeps(c)|)
  {
  }

  /** NavigateInnerNode: the child whose range holds the key. */
  method Navigate(c: Inner, k: Key) returns (id: Value)
    requires Good(c) && Within(k, c)
    ensures Routes(Seps(c), First(c), k, id)
  {
    var n: Inner, start: int, end: int := c, 1, 1 + |BaseSeps(c)|;
    while !n.Base?
      invariant Good(n) && Within(k, n) && Window(n, k, start, end) && Leads(n, c, k)
      decreases n
    {
      if Answers(n, k) {
        if n.Add? {
          AddAnswers(n, k);
          return n.item.id;
        }
        DropAnswers(n, k);
        return n.prev.id;
      }
      Passes(n, k);
      LeadsOn(Onward(n, k), n, c, k);
      if n.Join? {
        n := Onward(n, k);
        start, end := 1, 1 + |BaseSeps(n)|;
        WindowWhole(n, k);
      } else {
        if !n.Cut? {
          start, end := Shortcut(n, k, start, end);
        }
        n := n.child;
      }
    }
    id := AtBase(n, k, start, end);
  }

  /** The binary search over what the window leaves of a base node. */
  method AtBase(n: Inner, k: Key, start: int, end: int) returns (id: Value)
    requires n.Base? && Good(n) && Window(n, k, start, end)
    ensures Routes(Seps(n), First(n), k, id)
  {
    WindowBase(n, k, start, end);
    LocateAt(n.seps, n.first, k, start, end);
    id := Locate(n.seps, n.first, k, start, end);
  }

  /** The location of an index delta narrows the search in the base node below. */
  method Shortcut(n: Inner, k: Key, start: int, end: int) returns (start': int, end': int)
    requires Good(n) && (n.Add? || n.Drop?) && Window(n, k, start, end)
    ensures Window(n.child, k, start', end')
  {
    BaseSorted(n.child);
    NarrowInner(n.child, n.item.key, n.at, k, start, end);
    if n.item.key <= k {
      return (if start < n.at then n.at else start), end;
    }
    return start, (if n.at < end then n.at else end);
  }
}
