/** Exact search, consolidation and left-sibling search on inner delta chains. */
module BwInnerList {
  import opened Entries
  import opened BwChain
  import opened BwCollect
  import opened BwInner

  // ----- exact search -------------------------------------------------------------------------

  lemma {:induction false} FirstInIds(c: Inner)
    ensures First(c) in Ids(c)
  {
    if !c.Base? { FirstInIds(c.child); }
  }

  /** The separators of a branch: all but its first item if that starts the whole node, else that too. */
  function Full(c: Inner, leftmost: NodeId): map<Key, Value> {
    if First(c) == leftmost || Lowest(c).None? then Seps(c) else Seps(c)[Lowest(c).value := First(c)]
  }

  /** The branch starts the node, or it belongs to a merged right part and shares no ID with its start. */
  ghost predicate Placed(c: Inner, leftmost: NodeId) {
    First(c) == leftmost || (leftmost !in Ids(c) && Lowest(c).Some?)
  }

  lemma PlacedOn(c: Inner, leftmost: NodeId)
    requires Good(c) && !c.Base? && Placed(c, leftmost)
    ensures Placed(c.child, leftmost) && (c.Join? ==> Placed(c.right, leftmost) && First(c.right) != leftmost)
  {
    if c.Join? {
      FirstInIds(c.right);
    }
  }

  lemma FullOnward(c: Inner, leftmost: NodeId, k: Key)
    requires Good(c) && Within(k, c) && !c.Base? && Placed(c, leftmost)
    requires c.Add? || c.Drop? ==> c.item.key != k
    ensures Good(Onward(c, k)) && Within(k, Onward(c, k)) && Placed(Onward(c, k), leftmost)
    ensures MapGet(Full(Onward(c, k), leftmost), k) == MapGet(Full(c, leftmost), k)
  {
    PlacedOn(c, leftmost);
    match c
    case Add(_, _, _, _) =>
    case Drop(_, _, _, _, _) =>
    case Cut(_, _) => SepsWithin(c.child, c.item.key);
    case Join(_, _, _) => FullJoin(c, leftmost, k);
  }

  /** A merged node is its left part followed by all of its right part. */
  lemma FullJoin(c: Inner, leftmost: NodeId, k: Key)
    requires Good(c) && c.Join? && Placed(c, leftmost)
    ensures MapGet(Full(c, leftmost), k) == MapGet(Full(if k < c.item.key then c.child else c.right, leftmost), k)
  {
    PlacedOn(c, leftmost);
    JoinRange(c);
    if k in Seps(c.child) { SepsWithin(c.child, k); }
    if k in Seps(c.right) { SepsWithin(c.right, k); }
  }

  /** NavigateInnerNode on a snapshot: the separator equal to `k`, if there is one, and its place. */
  method FindItem(c: Inner, k: Key) returns (found: Option<Value>, at: nat)
    requires Good(c) && Within(k, c)
    ensures found == MapGet(Seps(c), k) && Located(c, k, at)
  {
    var n := c;
    while !n.Base?
      invariant Good(n) && Within(k, n) && Placed(n, First(c))
      invariant MapGet(Full(n, First(c)), k) == MapGet(Seps(c), k)
      invariant Straight(c) ==> Straight(n) && BaseSeps(n) == BaseSeps(c) && First(n) == First(c)
      decreases n
    {
      if (n.Add? || n.Drop?) && n.item.key == k {
        if n.Drop? { SepsWithin(n.child, k); }
        return (if n.Add? then Some(n.item.id) else None), n.at;
      }
      FullOnward(n, First(c), k);
      n := Onward(n, k);
    }
    FindInBase(n, First(c), k);
    if n.first != First(c) && n.lowest == Some(k) {
      return Some(n.first), 0;
    }
    var i := LowerBound(KeysOf(n.seps), k);
    return (if i < |n.seps| && n.seps[i].key == k then Some(n.seps[i].val) else None), 1 + i;
  }

  lemma FindInBase(n: Inner, leftmost: NodeId, k: Key)
    requires Good(n) && n.Base?
    ensures MapGet(Full(n, leftmost), k) ==
            if n.first != leftmost && n.lowest == Some(k) then Some(n.first) else LeafGet(n.seps, k)
  {
    MapOfGet(n.seps, k);
  }

  // ----- posting index deltas -----------------------------------------------------------------

  /** Posting a separator with a new child and its true right neighbour keeps the chain good and adds just
      that separator; none is posted if the key is there. */
  method PostAdd(c: Inner, item: Bound, next: Bound) returns (r: Option<Inner>)
    requires Good(c) && Past(item.key, Lowest(c)) && Below(item.key, Upper(c)) && item.id !in Ids(c)
    requires IsNext(Seps(c), Upper(c), item.key, next)
    ensures r.None? <==> item.key in Seps(c)
    ensures r.Some? ==> Good(r.value) && Seps(r.value) == Seps(c)[item.key := item.id] && First(r.value) == First(c)
  {
    var found, at := FindItem(c, item.key);
    if found.Some? {
      return None;
    }
    FirstInIds(c);
    return Some(Add(item, next, at, c));
  }

  /** Posting the removal of a separator with its true neighbours keeps the chain good and removes just
      that separator; none is posted if the key is not there. */
  method PostDrop(c: Inner, item: Bound, prev: Bound, next: Bound) returns (r: Option<Inner>)
    requires Good(c) && From(item.key, Lowest(c)) && Below(item.key, Upper(c))
    requires item.key in Seps(c) ==> Seps(c)[item.key] == item.id
    requires IsPrev(Seps(c), First(c), item.key, prev) && IsNext(Seps(c), Upper(c), item.key, next)
    ensures r.None? <==> item.key !in Seps(c)
    ensures r.Some? ==> Good(r.value) && Seps(r.value) == Seps(c) - {item.key} && First(r.value) == First(c)
  {
    var found, at := FindItem(c, item.key);
    if found.None? {
      return None;
    }
    return Some(Drop(item, prev, next, at, c));
  }

  /** The neighbours are what the help-along takes from the children: if kid `s` of the parent covers the
      keys up to its own upper bound `high` and no separator lies in between, that bound is the right
      neighbour of every key it covers. */
  lemma ChildKnowsNext(m: map<Key, Value>, upper: Bound, s: Key, k: Key, high: Bound)
    requires LastUpTo(m, k, s) && IsNext(m, upper, s, high) && Below(k, high)
    ensures IsNext(m, upper, k, high)
  {
  }

  // ----- consolidation ------------------------------------------------------------------------

  function DeltaOf(c: Inner): Delta
    requires c.Add? || c.Drop?
  {
    Delta(if c.Add? then Ins else Del, c.item.key, c.item.id, Place(0, false))
  }

  /** The merge of two sorted lists by key: a pending delta replaces or removes an equal separator. */
  function KeyMerged(base: seq<Entry>, p: seq<Delta>): seq<Entry>
    decreases |base| + |p|
  {
    if p == [] then base
    else if base == [] then EntryOf(p[0]) + KeyMerged(base, p[1..])
    else if base[0].key < p[0].key then [base[0]] + KeyMerged(base[1..], p)
    else if p[0].key < base[0].key then EntryOf(p[0]) + KeyMerged(base, p[1..])
    else EntryOf(p[0]) + KeyMerged(base[1..], p[1..])
  }

  ghost predicate MergesTo(out: seq<Entry>, base: seq<Entry>, p: seq<Delta>) {
    Sorted(KeysOf(out)) && forall k :: LeafGet(out, k) == Overlay(p, k, LeafGet(base, k))
  }

  lemma HeadGet(base: seq<Entry>, k: Key)
    requires base != [] && Sorted(KeysOf(base))
    ensures Sorted(KeysOf(base[1..]))
    ensures LeafGet(base, k) ==
        if k == base[0].key then Some(base[0].val) else if k < base[0].key then None else LeafGet(base[1..], k)
    ensures k <= base[0].key ==> LeafGet(base[1..], k) == None
  {
    var rest := base[1..];
    assert KeysOf(rest) == KeysOf(base)[1..];
    LeafGetIff(base, k);
    LeafGetIff(rest, k);
    if k in KeysOf(base) {
      var i :| 0 <= i < |base| && base[i].key == k;
      if i > 0 { assert rest[i - 1] == base[i]; }
    }
  }

  lemma FindHead(p: seq<Delta>, k: Key)
    requires p != [] && SortedDeltas(p)
    ensures SortedDeltas(p[1..])
    ensures Find(p, k) == if k == p[0].key then Some(p[0]) else if k < p[0].key then None else Find(p[1..], k)
    ensures k <= p[0].key ==> Find(p[1..], k) == None
  {
    FindAt(p, k);
    FindAt(p[1..], k);
  }

  /** Writing the smallest key first. */
  lemma Prepend(head: seq<Entry>, tail: seq<Entry>, key: Key, base: seq<Entry>, p: seq<Delta>, base': seq<Entry>,
      p': seq<Delta>)
    requires |head| <= 1 && (head != [] ==> head[0].key == key) && MergesTo(tail, base', p')
    requires forall k :: k <= key ==> Overlay(p', k, LeafGet(base', k)) == None
    requires forall k :: k < key ==> Overlay(p, k, LeafGet(base, k)) == None
    requires forall k :: key < k ==> Overlay(p, k, LeafGet(base, k)) == Overlay(p', k, LeafGet(base', k))
    requires Overlay(p, key, LeafGet(base, key)) == if head == [] then None else Some(head[0].val)
    ensures MergesTo(head + tail, base, p)
  {
    forall i | 0 <= i < |tail| ensures key < tail[i].key { LeafGetAt(tail, i); }
    JoinRuns(head, tail, key);
    forall k ensures LeafGet(head + tail, k) == Overlay(p, k, LeafGet(base, k)) {
      JoinRuns(head, tail, k);
      HeadIs(head, key, k);
    }
  }

  lemma HeadIs(head: seq<Entry>, key: Key, k: Key)
    requires |head| <= 1 && (head != [] ==> head[0].key == key)
    ensures Sorted(KeysOf(head)) && LeafGet(head, k) == if head != [] && k == key then Some(head[0].val) else None
  {
  }

  lemma {:induction false} KeyMergedOk(base: seq<Entry>, p: seq<Delta>)
    requires Sorted(KeysOf(base)) && SortedDeltas(p)
    ensures MergesTo(KeyMerged(base, p), base, p)
    decreases |base| + |p|
  {
    if p != [] {
      forall k ensures Find(p, k) ==
          (if k == p[0].key then Some(p[0]) else if k < p[0].key then None else Find(p[1..], k))
               && SortedDeltas(p[1..]) && (k <= p[0].key ==> Find(p[1..], k) == None)
      {
        FindHead(p, k);
      }
      if base == [] {
        KeyMergedOk(base, p[1..]);
        Prepend(EntryOf(p[0]), KeyMerged(base, p[1..]), p[0].key, base, p, base, p[1..]);
      } else {
        KeyMergedStep(base, p);
      }
    }
  }

  lemma KeyMergedStep(base: seq<Entry>, p: seq<Delta>)
    requires Sorted(KeysOf(base)) && SortedDeltas(p) && base != [] && p != []
    requires forall k ::
        Find(p, k) == (if k == p[0].key then Some(p[0]) else if k < p[0].key then None else Find(p[1..], k))
    requires SortedDeltas(p[1..]) && forall k :: k <= p[0].key ==> Find(p[1..], k) == None
    ensures MergesTo(KeyMerged(base, p), base, p)
    decreases |base| + |p|, 0
  {
    forall k ensures Sorted(KeysOf(base[1..])) && (k <= base[0].key ==> LeafGet(base[1..], k) == None)
             && LeafGet(base, k) ==
                 (if k == base[0].key then Some(base[0].val) else if k < base[0].key then None
                     else LeafGet(base[1..], k))
    {
      HeadGet(base, k);
    }
    if base[0].key < p[0].key {
      KeyMergedOk(base[1..], p);
      Prepend([base[0]], KeyMerged(base[1..], p), base[0].key, base, p, base[1..], p);
    } else if p[0].key < base[0].key {
      KeyMergedOk(base, p[1..]);
      Prepend(EntryOf(p[0]), KeyMerged(base, p[1..]), p[0].key, base, p, base, p[1..]);
    } else {
      KeyMergedOk(base[1..], p[1..]);
      Prepend(EntryOf(p[0]), KeyMerged(base[1..], p[1..]), p[0].key, base, p, base[1..], p[1..]);
    }
  }

  datatype Gathered = Gathered(out: seq<Entry>, rest: seq<Delta>)

  /** All items of a base node that count as separators of the branch. */
  function Items(c: Inner, leftmost: NodeId): seq<Entry>
    requires c.Base?
  {
    if c.first == leftmost || c.lowest.None? then c.seps else [Entry(c.lowest.value, c.first)] + c.seps
  }

  function AtBaseNode(items: seq<Entry>, high: Bound, p: seq<Delta>): Gathered {
    var n := CountBelow(p, high);
    Gathered(KeyMerged(items[..CutBelow(items, high)], p[..n]), p[n..])
  }

  /** CollectAllSepsOnInnerRecursive. */
  function Gather(c: Inner, p: seq<Delta>, leftmost: NodeId): Gathered {
    match c
    case Base(_, _, _, high, _) => AtBaseNode(Items(c, leftmost), high, p)
    case Add(_, _, _, child) => Gather(child, Take(p, DeltaOf(c)), leftmost)
    case Drop(_, _, _, _, child) => Gather(child, Take(p, DeltaOf(c)), leftmost)
    case Cut(item, child) =>
      if child.Base? then AtBaseNode(Items(child, leftmost), item, p) else Gather(child, p, leftmost)
    case Join(_, child, right) =>
      var l := Gather(child, p, leftmost);
      var r := Gather(right, l.rest, leftmost);
      Gathered(l.out + r.out, r.rest)
  }

  /** What an inner chain is consolidated into. */
  function Consolidated(c: Inner, depth: nat): Inner {
    Base(Lowest(c), First(c), Gather(c, [], First(c)).out, Upper(c), depth)
  }

  ghost predicate Ready(c: Inner, p: seq<Delta>) {
    SortedDeltas(p) && forall k :: Find(p, k).Some? ==> From(k, Lowest(c))
  }

  ghost predicate GatheredFrom(g: Gathered, c: Inner, p: seq<Delta>, leftmost: NodeId) {
    && Sorted(KeysOf(g.out)) && SortedDeltas(g.rest)
    && (forall k ::
        LeafGet(g.out, k) == if Below(k, Upper(c)) then Overlay(p, k, MapGet(Full(c, leftmost), k)) else None)
    && (forall k :: Find(g.rest, k) == if Below(k, Upper(c)) then None else Find(p, k))
  }

  lemma ItemsGet(c: Inner, leftmost: NodeId, k: Key)
    requires Good(c) && c.Base?
    ensures Sorted(KeysOf(Items(c, leftmost)))
    ensures LeafGet(Items(c, leftmost), k) == MapGet(Full(c, leftmost), k)
  {
    MapOfGet(c.seps, k);
    if c.first != leftmost && c.lowest.Some? {
      var head := [Entry(c.lowest.value, c.first)];
      HeadIs(head, c.lowest.value, k);
      JoinRuns(head, c.seps, k);
    }
  }

  lemma AtBaseNodeOk(items: seq<Entry>, high: Bound, p: seq<Delta>)
    requires Sorted(KeysOf(items)) && SortedDeltas(p)
    ensures var g := AtBaseNode(items, high, p);
            && Sorted(KeysOf(g.out)) && SortedDeltas(g.rest)
            && (forall k :: LeafGet(g.out, k) == if Below(k, high) then Overlay(p, k, LeafGet(items, k)) else None)
            && (forall k :: Find(g.rest, k) == if Below(k, high) then None else Find(p, k))
  {
    var n, cut := CountBelow(p, high), items[..CutBelow(items, high)];
    CutItems(items, high, 0);
    KeyMergedOk(cut, p[..n]);
    var g := AtBaseNode(items, high, p);
    forall k
      ensures LeafGet(g.out, k) == if Below(k, high) then Overlay(p, k, LeafGet(items, k)) else None
      ensures Find(g.rest, k) == if Below(k, high) then None else Find(p, k)
    {
      CutItems(items, high, k);
      CutDeltas(p, high, k);
    }
  }

  lemma GatherBase(c: Inner, base: Inner, p: seq<Delta>, leftmost: NodeId)
    requires Good(c) && (c == base || (c.Cut? && base == c.child)) && base.Base? && SortedDeltas(p)
    ensures GatheredFrom(AtBaseNode(Items(base, leftmost), Upper(c), p), c, p, leftmost)
  {
    ItemsGet(base, leftmost, 0);
    AtBaseNodeOk(Items(base, leftmost), Upper(c), p);
    forall k | Below(k, Upper(c)) ensures LeafGet(Items(base, leftmost), k) == MapGet(Full(c, leftmost), k) {
      FullBase(c, base, leftmost, k);
    }
  }

  lemma FullBase(c: Inner, base: Inner, leftmost: NodeId, k: Key)
    requires Good(c) && (c == base || (c.Cut? && base == c.child)) && base.Base? && Below(k, Upper(c))
    ensures LeafGet(Items(base, leftmost), k) == MapGet(Full(c, leftmost), k)
  {
    ItemsGet(base, leftmost, k);
    if c.Cut? {
      RestrictGet(Seps(base), c.item, k);
      assert First(c) == First(base) && Lowest(c) == Lowest(base) && Seps(c) == Restrict(Seps(base), c.item);
    }
  }

  lemma RestrictGet(m: map<Key, Value>, high: Bound, k: Key)
    requires Below(k, high)
    ensures MapGet(Restrict(m, high), k) == MapGet(m, k)
  {
  }

  lemma GatherDelta(c: Inner, p: seq<Delta>, leftmost: NodeId, g: Gathered)
    requires Good(c) && (c.Add? || c.Drop?) && Ready(c, p)
    requires forall k ::
        Find(Take(p, DeltaOf(c)), k) == if Find(p, k).None? && k == c.item.key then Some(DeltaOf(c)) else Find(p, k)
    requires GatheredFrom(g, c.child, Take(p, DeltaOf(c)), leftmost)
    ensures GatheredFrom(g, c, p, leftmost)
  {
    if c.Drop? { SepsWithin(c.child, c.item.key); }
    assert Below(c.item.key, Upper(c));
    forall k ensures Overlay(Take(p, DeltaOf(c)), k, MapGet(Full(c.child, leftmost), k)) ==
        Overlay(p, k, MapGet(Full(c, leftmost), k)) {
      FullDelta(c, leftmost, k);
    }
  }

  /** An index delta changes the separators at its own key only. */
  lemma FullDelta(c: Inner, leftmost: NodeId, k: Key)
    requires Good(c) && (c.Add? || c.Drop?)
    ensures MapGet(Full(c, leftmost), k) ==
        if k == c.item.key then Effect(DeltaOf(c)) else MapGet(Full(c.child, leftmost), k)
  {
    if c.Drop? { SepsWithin(c.child, c.item.key); }
  }

  lemma GatherJoin(c: Inner, p: seq<Delta>, leftmost: NodeId, l: Gathered, r: Gathered)
    requires Good(c) && c.Join? && Placed(c, leftmost)
    requires GatheredFrom(l, c.child, p, leftmost) && GatheredFrom(r, c.right, l.rest, leftmost)
    ensures GatheredFrom(Gathered(l.out + r.out, r.rest), c, p, leftmost)
  {
    JoinRange(c);
    forall i | 0 <= i < |l.out| ensures l.out[i].key < c.item.key { LeafGetAt(l.out, i); }
    forall j | 0 <= j < |r.out| ensures c.item.key <= r.out[j].key { GatherLow(c, p, leftmost, l, r, j); }
    JoinRuns(l.out, r.out, 0);
    forall k
      ensures LeafGet(l.out + r.out, k) ==
          if Below(k, Upper(c)) then Overlay(p, k, MapGet(Full(c, leftmost), k)) else None
    {
      GatherJoinGet(c, p, leftmost, l, r, k);
    }
  }

  lemma GatherJoinGet(c: Inner, p: seq<Delta>, leftmost: NodeId, l: Gathered, r: Gathered, k: Key)
    requires Good(c) && c.Join? && Placed(c, leftmost)
    requires GatheredFrom(l, c.child, p, leftmost) && GatheredFrom(r, c.right, l.rest, leftmost)
    requires forall i, j :: 0 <= i < |l.out| && 0 <= j < |r.out| ==> l.out[i].key < r.out[j].key
    requires Below(c.item.key, Upper(c.right))
    ensures LeafGet(l.out + r.out, k) ==
        if Below(k, Upper(c)) then Overlay(p, k, MapGet(Full(c, leftmost), k)) else None
  {
    JoinRuns(l.out, r.out, k);
    FullJoin(c, leftmost, k);
    if k < c.item.key { GatherNone(c, p, leftmost, l, r, k); }
  }

  /** The right part contributes nothing below the merge key. */
  lemma GatherNone(c: Inner, p: seq<Delta>, leftmost: NodeId, l: Gathered, r: Gathered, k: Key)
    requires Good(c) && c.Join? && Placed(c, leftmost) && k < c.item.key
    requires GatheredFrom(l, c.child, p, leftmost) && GatheredFrom(r, c.right, l.rest, leftmost)
    ensures LeafGet(r.out, k) == None
  {
    PlacedOn(c, leftmost);
    if k in Seps(c.right) { SepsWithin(c.right, k); }
    assert Find(l.rest, k) == None;
  }

  lemma GatherLow(c: Inner, p: seq<Delta>, leftmost: NodeId, l: Gathered, r: Gathered, j: nat)
    requires Good(c) && c.Join? && Placed(c, leftmost) && j < |r.out|
    requires GatheredFrom(l, c.child, p, leftmost) && GatheredFrom(r, c.right, l.rest, leftmost)
    ensures c.item.key <= r.out[j].key
  {
    LeafGetAt(r.out, j);
    if r.out[j].key < c.item.key {
      GatherNone(c, p, leftmost, l, r, r.out[j].key);
    }
  }

  lemma {:induction false} GatherOk(c: Inner, p: seq<Delta>, leftmost: NodeId)
    requires Good(c) && Ready(c, p) && Placed(c, leftmost)
    ensures GatheredFrom(Gather(c, p, leftmost), c, p, leftmost)
  {
    match c
    case Base(_, _, _, _, _) => GatherBase(c, c, p, leftmost);
    case Cut(_, child) => GatherBase(c, child, p, leftmost);
    case Add(_, _, _, child) => GatherOn(c, p, leftmost); GatherOk(child, Take(p, DeltaOf(c)), leftmost);
      GatherDelta(c, p, leftmost, Gather(c, p, leftmost));
    case Drop(_, _, _, _, child) => GatherOn(c, p, leftmost); GatherOk(child, Take(p, DeltaOf(c)), leftmost);
      GatherDelta(c, p, leftmost, Gather(c, p, leftmost));
    case Join(_, child, right) =>
      PlacedOn(c, leftmost);
      JoinRange(c);
      GatherOk(child, p, leftmost);
      GatherOk(right, Gather(child, p, leftmost).rest, leftmost);
      GatherJoin(c, p, leftmost, Gather(child, p, leftmost), Gather(right, Gather(child, p, leftmost).rest, leftmost));
  }

  lemma GatherOn(c: Inner, p: seq<Delta>, leftmost: NodeId)
    requires Good(c) && (c.Add? || c.Drop?) && Ready(c, p) && Placed(c, leftmost)
    ensures Good(c.child) && Ready(c.child, Take(p, DeltaOf(c))) && Placed(c.child, leftmost)
    ensures forall k ::
        Find(Take(p, DeltaOf(c)), k) == if Find(p, k).None? && k == c.item.key then Some(DeltaOf(c)) else Find(p, k)
  {
    TakeOk(p, DeltaOf(c));
    PlacedOn(c, leftmost);
    if c.Drop? { SepsWithin(c.child, c.item.key); }
  }

  /** Consolidating an inner chain gives a sorted node with the same range, first child and separators. */
  lemma ConsolidatedOk(c: Inner, depth: nat)
    requires Good(c)
    ensures Good(Consolidated(c, depth)) && Seps(Consolidated(c, depth)) == Seps(c)
    ensures First(Consolidated(c, depth)) == First(c) && Lowest(Consolidated(c, depth)) == Lowest(c)
    ensures Upper(Consolidated(c, depth)) == Upper(c)
  {
    var out := Gather(c, [], First(c)).out;
    GatherOk(c, [], First(c));
    forall k ensures MapGet(Seps(c), k) == LeafGet(out, k) {
      if k in Seps(c) { SepsWithin(c, k); }
    }
    SameMap(out, Seps(c));
    RangeGood(c);
    forall i | 0 <= i < |out| ensures Past(out[i].key, Lowest(c)) && Below(out[i].key, Upper(c)) {
      LeafGetAt(out, i);
      assert MapGet(Seps(c), out[i].key) == LeafGet(out, out[i].key);
      SepsWithin(c, out[i].key);
    }
  }

  // ----- item counts --------------------------------------------------------------------------

  /** The item count each delta carries; a split takes off the items of the new sibling. */
  function ItemCount(c: Inner): int {
    match c
    case Base(_, _, seps, _, _) => 1 + |seps|
    case Add(_, _, _, child) => ItemCount(child) + 1
    case Drop(_, _, _, _, child) => ItemCount(child) - 1
    case Cut(item, child) =>
      ItemCount(child) - (if child.Base? then |child.seps[LowerBound(KeysOf(child.seps), item.key)..]| else 0)
    case Join(_, child, right) => ItemCount(child) + ItemCount(right)
  }

  lemma JoinSize(c: Inner)
    requires Good(c) && c.Join?
    ensures |Seps(c)| == |Seps(c.child)| + |Seps(c.right)| + 1
  {
    var l, r, k := Seps(c.child), Seps(c.right), c.item.key;
    forall x | x in l ensures x < k { SepsWithin(c.child, x); }
    forall x | x in r ensures k < x { SepsWithin(c.right, x); }
    DisjointSize(l, r[k := First(c.right)]);
  }

  lemma CutSize(c: Inner)
    requires Good(c) && c.Cut?
    ensures |Seps(c)| == LowerBound(KeysOf(c.child.seps), c.item.key)
  {
    var seps := c.child.seps;
    var i := IndexOf(seps, c.item.key);
    LowerBoundUnique(KeysOf(seps), c.item.key, i);
    CountCut(seps, i, c.item);
  }

  /** The item count is one more than the number of separators. */
  lemma {:induction false} CountExact(c: Inner)
    requires Good(c)
    ensures ItemCount(c) == 1 + |Seps(c)|
  {
    match c
    case Base(_, _, seps, _, _) => CountLeaf(seps);
    case Add(_, _, _, child) => CountExact(child);
    case Drop(_, _, _, _, child) => CountExact(child);
    case Cut(_, child) => CountExact(child); CutSize(c); CountLeaf(child.seps);
    case Join(_, child, right) => CountExact(child); CountExact(right); JoinSize(c);
  }

  /** Consolidation fills exactly the node allocated for the item count of the chain. */
  lemma FillsExactly(c: Inner, depth: nat)
    requires Good(c)
    ensures 1 + |Consolidated(c, depth).seps| == ItemCount(c)
  {
    CountExact(c);
    ConsolidatedOk(c, depth);
    CountLeaf(Consolidated(c, depth).seps);
  }
}
