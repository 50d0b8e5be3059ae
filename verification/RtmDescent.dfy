/** The descent of btree-rtm as a function on trees: inner nodes are split or merged on the way, then the
    leaf is. */
module RtmDescent {
  import opened Entries
  import opened RtmNode
  import opened RtmTree
  import opened RtmSmo

  /** A node, its parent and its index there. */
  datatype At = At(n: Id, parent: Option<Id>, index: nat)

  datatype Stop = Stop(t: Tree, n: Id)

  datatype Arrival = Arrival(t: Tree, at: At)

  /** The first item above `k`, the first item not counted. */
  function UbOf(items: seq<Entry>, k: Key, from: nat): (pos: nat)
    requires 1 <= from <= |items|
    ensures from <= pos <= |items|
    ensures (forall i :: from <= i < pos ==> items[i].key <= k) && (pos < |items| ==> k < items[pos].key)
    decreases |items| - from
  {
    if from == |items| || k < items[from].key then from else UbOf(items, k, from + 1)
  }

  /** The node a descent for `k` has come to: it holds the key, and its parent has room. */
  ghost predicate Reached(t: Tree, k: Key, at: At) {
    && at.n in t.cells && Covers(t.cells[at.n].span, k)
    && (at.parent.None? ==> at.n == t.root)
    && (at.parent.Some? ==>
          IsKid(t, at.parent.value, at.index, at.n) && |t.cells[at.parent.value].node.items| < CAPACITY)
  }

  ghost predicate Adjusted(t: Tree, k: Key, n: Id, level: nat, inner: bool) {
    && n in t.cells && Covers(t.cells[n].span, k) && t.cells[n].node.level == level && t.cells[n].node.inner == inner
    && |t.cells[n].node.items| < CAPACITY
  }

  // ----- one node -----------------------------------------------------------------------------

  /** A full node is split, and the half for `k` is the one to go on with. */
  ghost function Halve(t: Tree, k: Key, at: At): Stop
    requires ShapeOk(t) && Reached(t, k, at) && |t.cells[at.n].node.items| == CAPACITY
  {
    Stop(if at.parent.None? then SplitTop(t) else SplitUnder(t, at.parent.value, at.n),
         if k >= SepOf(t.cells[at.n]) then t.unused else at.n)
  }

  /** The items of kid `i` of `p`. */
  function KidItems(t: Tree, p: Id, i: nat): seq<Entry>
    requires p in t.cells && i < |t.cells[p].node.items|
  {
    var id := t.cells[p].node.items[i].val;
    if id in t.cells then t.cells[id].node.items else []
  }

  predicate Fit(t: Tree, p: Id, j: nat)
    requires p in t.cells && j + 1 < |t.cells[p].node.items|
  {
    |KidItems(t, p, j)| + |KidItems(t, p, j + 1)| < CAPACITY
  }

  /** The index of the left one of the two kids of `p` that are merged on behalf of kid `index`: its left
      neighbour comes first. */
  function MergeIndex(t: Tree, p: Id, index: nat): (j: Option<nat>)
    requires p in t.cells && index < |t.cells[p].node.items|
    ensures j.Some? ==> j.value + 1 < |t.cells[p].node.items| && (j.value == index || j.value + 1 == index)
    ensures j.Some? ==> Fit(t, p, j.value)
  {
    if index != 0 && Fit(t, p, index - 1) then Some(index - 1)
    else if index + 1 < |t.cells[p].node.items| && Fit(t, p, index) then Some(index)
    else None
  }

  ghost function Join(t: Tree, n: Id, p: Id, index: nat): Stop
    requires ShapeOk(t) && IsKid(t, p, index, n)
  {
    var j := MergeIndex(t, p, index);
    if j.None? then Stop(t, n)
    else
      var left, right := t.cells[p].node.items[j.value].val, t.cells[p].node.items[j.value + 1].val;
      KidsThere(t, p, j.value);
      KidsThere(t, p, j.value + 1);
      Stop(MergeAt(t, p, j.value, left, right), left)
  }

  lemma KidsThere(t: Tree, p: Id, i: nat)
    requires ShapeOk(t) && p in t.cells && t.cells[p].node.inner && i < |t.cells[p].node.items|
    ensures t.cells[p].node.items[i].val in t.cells
  {
    assert CellOk(t, p) && KidOk(t.cells, t.cells[p], i);
  }

  /** btnode_smo. */
  ghost function Adjust(t: Tree, k: Key, at: At): Stop
    requires ShapeOk(t) && Reached(t, k, at)
  {
    var size := |t.cells[at.n].node.items|;
    if size == CAPACITY then Halve(t, k, at)
    else if at.parent.Some? && size < MERGE_THRESHOLD then Join(t, at.n, at.parent.value, at.index)
    else Stop(t, at.n)
  }

  lemma JoinNeighbours(t: Tree, n: Id, p: Id, index: nat)
    requires ShapeOk(t) && IsKid(t, p, index, n) && MergeIndex(t, p, index).Some?
    ensures var j, items := MergeIndex(t, p, index).value, t.cells[p].node.items;
            Neighbours(t, p, j, items[j].val, items[j + 1].val)
  {
    var j := MergeIndex(t, p, index).value;
    KidsThere(t, p, j);
    KidsThere(t, p, j + 1);
  }

  lemma HalveOk(t: Tree, k: Key, at: At)
    requires ShapeOk(t) && Reached(t, k, at) && |t.cells[at.n].node.items| == CAPACITY
    ensures var s := Halve(t, k, at);
            ShapeOk(s.t) && Adjusted(s.t, k, s.n, t.cells[at.n].node.level, t.cells[at.n].node.inner)
  {
    BelowUnused(t);
    if at.parent.None? {
      SplitTopShape(t);
    } else {
      KidFacts(t, at.parent.value, at.index, at.n);
      SplitUnderShape(t, at.parent.value, at.index, at.n);
    }
  }

  lemma JoinOk(t: Tree, k: Key, at: At)
    requires ShapeOk(t) && Reached(t, k, at) && at.parent.Some? && |t.cells[at.n].node.items| < CAPACITY
    ensures var s := Join(t, at.n, at.parent.value, at.index);
            ShapeOk(s.t) && Adjusted(s.t, k, s.n, t.cells[at.n].node.level, t.cells[at.n].node.inner)
  {
    var p := at.parent.value;
    var j := MergeIndex(t, p, at.index);
    if j.Some? {
      var left, right := t.cells[p].node.items[j.value].val, t.cells[p].node.items[j.value + 1].val;
      JoinNeighbours(t, at.n, p, at.index);
      NeighbourFacts(t, p, j.value, left, right);
      MergeShape(t, p, j.value, left, right);
    }
  }

  /** What is reached has the same level, holds the key and has room. */
  lemma AdjustOk(t: Tree, k: Key, at: At)
    requires ShapeOk(t) && Reached(t, k, at)
    ensures var s := Adjust(t, k, at);
            ShapeOk(s.t) && Adjusted(s.t, k, s.n, t.cells[at.n].node.level, t.cells[at.n].node.inner)
  {
    assert CellOk(t, at.n);
    var size := |t.cells[at.n].node.items|;
    if size == CAPACITY {
      HalveOk(t, k, at);
    } else if at.parent.Some? && size < MERGE_THRESHOLD {
      JoinOk(t, k, at);
    }
  }

  /** Splits and merges do not change the map. */
  lemma AdjustHolds(t: Tree, m: map<Key, Value>, k: Key, at: At)
    requires TreeOk(t, m) && Reached(t, k, at)
    ensures TreeOk(Adjust(t, k, at).t, m)
  {
    var size := |t.cells[at.n].node.items|;
    if size == CAPACITY {
      if at.parent.None? {
        SplitTopOk(t, m);
      } else {
        SplitUnderOk(t, m, at.parent.value, at.index, at.n);
      }
    } else if at.parent.Some? && size < MERGE_THRESHOLD {
      var p := at.parent.value;
      var j := MergeIndex(t, p, at.index);
      if j.Some? {
        JoinNeighbours(t, at.n, p, at.index);
        MergeOk(t, m, p, j.value, t.cells[p].node.items[j.value].val, t.cells[p].node.items[j.value + 1].val);
      }
    }
  }

  // ----- the way down -------------------------------------------------------------------------

  ghost function Down(t: Tree, k: Key, n: Id): At
    requires n in t.cells && t.cells[n].node.items != []
  {
    var items := t.cells[n].node.items;
    var index := UbOf(items, k, 1) - 1;
    At(items[index].val, Some(n), index)
  }

  lemma DownOk(t: Tree, k: Key, n: Id)
    requires ShapeOk(t) && n in t.cells && t.cells[n].node.inner && Covers(t.cells[n].span, k)
    requires |t.cells[n].node.items| < CAPACITY
    ensures t.cells[n].node.items != []
    ensures var at := Down(t, k, n);
            Reached(t, k, at) && t.cells[at.n].node.level + 1 == t.cells[n].node.level
  {
    assert CellOk(t, n);
    var items := t.cells[n].node.items;
    var index := UbOf(items, k, 1) - 1;
    UbKid(items, t.cells[n].span, k, index + 1);
    assert KidOk(t.cells, t.cells[n], index);
  }

  /** The tree and the place when a descent has come to the leaf, before that is adjusted in turn. */
  ghost function Arrive(t: Tree, k: Key, at: At): (a: Arrival)
    requires ShapeOk(t) && Reached(t, k, at)
    ensures ShapeOk(a.t) && Reached(a.t, k, a.at) && !a.t.cells[a.at.n].node.inner
    decreases t.cells[at.n].node.level
  {
    if !t.cells[at.n].node.inner then Arrival(t, at)
    else
      AdjustOk(t, k, at);
      var s := Adjust(t, k, at);
      DownOk(s.t, k, s.n);
      Arrive(s.t, k, Down(s.t, k, s.n))
  }

  lemma StartReached(t: Tree, k: Key)
    requires ShapeOk(t)
    ensures Reached(t, k, At(t.root, None, 0))
  {
  }

  /** bt_findleaf. */
  ghost function Descended(t: Tree, k: Key): Stop
    requires ShapeOk(t)
  {
    var a := Arrive(t, k, At(t.root, None, 0));
    Adjust(a.t, k, a.at)
  }

  // ----- empty leaves -------------------------------------------------------------------------

  predicate IsLeaf(t: Tree, id: Id) {
    id in t.cells && !t.cells[id].node.inner
  }

  ghost predicate LeavesKept(t: Tree, t': Tree) {
    forall id {:trigger IsLeaf(t, id)} {:trigger IsLeaf(t', id)} ::
      (IsLeaf(t, id) <==> IsLeaf(t', id)) && (IsLeaf(t, id) ==> t'.cells[id] == t.cells[id])
  }

  lemma HalveLeaves(t: Tree, k: Key, at: At)
    requires ShapeOk(t) && Reached(t, k, at) && t.cells[at.n].node.inner && |t.cells[at.n].node.items| == CAPACITY
    ensures LeavesKept(t, Halve(t, k, at).t)
  {
    BelowUnused(t);
    if at.parent.Some? { KidFacts(t, at.parent.value, at.index, at.n); }
  }

  lemma JoinLeaves(t: Tree, n: Id, p: Id, index: nat)
    requires ShapeOk(t) && IsKid(t, p, index, n) && t.cells[n].node.inner
    ensures LeavesKept(t, Join(t, n, p, index).t)
  {
    var j := MergeIndex(t, p, index);
    if j.Some? {
      var left, right := t.cells[p].node.items[j.value].val, t.cells[p].node.items[j.value + 1].val;
      JoinNeighbours(t, n, p, index);
      NeighbourFacts(t, p, j.value, left, right);
      MergedLeaves(t, p, j.value, left, right);
    }
  }

  lemma MergedLeaves(t: Tree, p: Id, j: nat, left: Id, right: Id)
    requires p in t.cells && left in t.cells && right in t.cells && j + 1 < |t.cells[p].node.items|
    requires t.cells[p].node.inner && t.cells[left].node.inner && t.cells[right].node.inner
    ensures LeavesKept(t, MergeAt(t, p, j, left, right))
  {
  }

  /** Adjusting an inner node does not touch the leaves. */
  lemma AdjustLeaves(t: Tree, k: Key, at: At)
    requires ShapeOk(t) && Reached(t, k, at) && t.cells[at.n].node.inner
    ensures LeavesKept(t, Adjust(t, k, at).t)
  {
    var size := |t.cells[at.n].node.items|;
    if size == CAPACITY {
      HalveLeaves(t, k, at);
    } else if at.parent.Some? && size < MERGE_THRESHOLD {
      JoinLeaves(t, at.n, at.parent.value, at.index);
    }
  }

  lemma {:induction false} ArriveLeaves(t: Tree, k: Key, at: At)
    requires ShapeOk(t) && Reached(t, k, at)
    ensures LeavesKept(t, Arrive(t, k, at).t)
    decreases t.cells[at.n].node.level
  {
    if t.cells[at.n].node.inner {
      AdjustOk(t, k, at);
      AdjustLeaves(t, k, at);
      var s := Adjust(t, k, at);
      DownOk(s.t, k, s.n);
      ArriveLeaves(s.t, k, Down(s.t, k, s.n));
    }
  }

  ghost predicate EmptyLeaf(t: Tree, k: Key, n: Id) {
    IsLeaf(t, n) && Covers(t.cells[n].span, k) && t.cells[n].node.items == []
  }

  /** The leaf for `k` holds nothing. */
  ghost predicate EmptyAt(t: Tree, k: Key) {
    exists n :: EmptyLeaf(t, k, n)
  }

  /** When the descent comes to the leaf for `k`, that has a neighbour under the same parent which fits
      with it, the left one first, and the two have entries. */
  ghost predicate Refills(t: Tree, k: Key)
    requires ShapeOk(t)
  {
    var a := Arrive(t, k, At(t.root, None, 0));
    a.at.parent.Some? &&
    var p := a.at.parent.value;
    var j := MergeIndex(a.t, p, a.at.index);
    j.Some? && |KidItems(a.t, p, j.value)| + |KidItems(a.t, p, j.value + 1)| > 0
  }

  lemma LeafUnique(t: Tree, k: Key, a: Id, b: Id)
    requires ShapeOk(t) && IsLeaf(t, a) && IsLeaf(t, b) && Covers(t.cells[a].span, k) && Covers(t.cells[b].span, k)
    ensures a == b
  {
    assert CellOk(t, a) && CellOk(t, b) && PairApart(t.cells, a, b);
  }

  /** Adjusting a leaf leaves it empty exactly if it is empty and no neighbour refills it. */
  lemma LastEmpty(t: Tree, k: Key, at: At)
    requires ShapeOk(t) && Reached(t, k, at) && !t.cells[at.n].node.inner
    ensures var s := Adjust(t, k, at);
            && s.n in s.t.cells
            && (s.t.cells[s.n].node.items == [] <==>
                  && t.cells[at.n].node.items == []
                  && !(at.parent.Some? &&
                       var p := at.parent.value;
                       var j := MergeIndex(t, p, at.index);
                       j.Some? && |KidItems(t, p, j.value)| + |KidItems(t, p, j.value + 1)| > 0))
  {
    AdjustOk(t, k, at);
    var size := |t.cells[at.n].node.items|;
    if size == CAPACITY {
      BelowUnused(t);
      if at.parent.Some? { KidFacts(t, at.parent.value, at.index, at.n); }
    } else if at.parent.Some? && size < MERGE_THRESHOLD {
      LastJoin(t, at.n, at.parent.value, at.index);
    }
  }

  lemma LastJoin(t: Tree, n: Id, p: Id, index: nat)
    requires ShapeOk(t) && IsKid(t, p, index, n)
    ensures var s, j := Join(t, n, p, index), MergeIndex(t, p, index);
            && (j.None? ==> s == Stop(t, n))
            && (j.Some? ==> s.n in s.t.cells)
            && (j.Some? ==> s.t.cells[s.n].node.items == KidItems(t, p, j.value) + KidItems(t, p, j.value + 1))
            && (j.Some? && t.cells[n].node.items != [] ==> KidItems(t, p, j.value) + KidItems(t, p, j.value + 1) != [])
  {
    var j := MergeIndex(t, p, index);
    if j.Some? {
      JoinNeighbours(t, n, p, index);
      NeighbourFacts(t, p, j.value, t.cells[p].node.items[j.value].val, t.cells[p].node.items[j.value + 1].val);
    }
  }

  /** The descent ends in an empty leaf exactly if the leaf for the key is empty to begin with and is not
      refilled. */
  lemma DescendedEmpty(t: Tree, k: Key)
    requires ShapeOk(t)
    ensures var d := Descended(t, k);
            d.n in d.t.cells && (d.t.cells[d.n].node.items == [] <==> EmptyAt(t, k) && !Refills(t, k))
  {
    var start := At(t.root, None, 0);
    var a := Arrive(t, k, start);
    ArriveLeaves(t, k, start);
    LastEmpty(a.t, k, a.at);
    assert IsLeaf(a.t, a.at.n) && IsLeaf(t, a.at.n);
    if a.t.cells[a.at.n].node.items == [] {
      assert EmptyLeaf(t, k, a.at.n);
    }
    if EmptyAt(t, k) {
      var e :| EmptyLeaf(t, k, e);
      LeafUnique(t, k, e, a.at.n);
    }
  }
}
