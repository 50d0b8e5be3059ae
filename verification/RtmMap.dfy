/** btree-rtm as an object: every operation goes down to a leaf, splitting and merging on the way, and the
    tree acts as a finite map. */
module RtmMap {
  import opened Entries
  import opened RtmNode
  import opened RtmTree
  import opened RtmSmo
  import opened RtmDescent

  /** The searches of the node in memory find the places these functions give. */
  lemma LbUnique(items: seq<Entry>, inner: bool, k: Key, pos: nat)
    requires Ordered(items, inner) && IsLb(items, inner, k, pos)
    ensures pos == LbOf(items, k, First(items, inner))
  {
  }

  lemma UbUnique(items: seq<Entry>, k: Key, pos: nat)
    requires items != [] && Ordered(items, true) && IsUb(items, k, pos)
    ensures pos == UbOf(items, k, 1)
  {
  }

  // ----- the items of a leaf ------------------------------------------------------------------

  lemma LeafLb(items: seq<Entry>, k: Key)
    requires Sorted(KeysOf(items))
    ensures LbOf(items, k, 0) == LowerBound(KeysOf(items), k)
  {
    LowerBoundUnique(KeysOf(items), k, LbOf(items, k, 0));
  }

  /** What is found at the lower bound is the value of the key. */
  lemma LeafFound(items: seq<Entry>, k: Key, pos: nat)
    requires Sorted(KeysOf(items)) && pos == LbOf(items, k, 0)
    ensures LeafGet(items, k) == if pos < |items| && items[pos].key == k then Some(items[pos].val) else None
  {
    LeafLb(items, k);
  }

  lemma PutItems(items: seq<Entry>, s: Span, k: Key, v: Value)
    requires LeafOk(items, s) && Covers(s, k)
    ensures LeafOk(LeafPut(items, k, v), s) && |LeafPut(items, k, v)| <= |items| + 1
    ensures forall x :: LeafGet(LeafPut(items, k, v), x) == if x == k then Some(v) else LeafGet(items, x)
  {
    LeafPutSorted(items, k, v);
    var put := LeafPut(items, k, v);
    forall i | 0 <= i < |put| ensures Covers(s, put[i].key) { assert put[i].key in KeysOf(put); }
    forall x ensures LeafGet(put, x) == if x == k then Some(v) else LeafGet(items, x) { LeafPutGet(items, k, v, x); }
  }

  lemma DropItems(items: seq<Entry>, s: Span, pos: nat)
    requires LeafOk(items, s) && pos < |items|
    ensures LeafOk(Without(items, pos), s)
    ensures forall x :: LeafGet(Without(items, pos), x) == if x == items[pos].key then None else LeafGet(items, x)
  {
    var r, keys := Without(items, pos), KeysOf(items);
    assert forall i :: 0 <= i < |r| ==> r[i] == items[if i < pos then i else i + 1];
    forall i, j | 0 <= i < j < |r| ensures KeysOf(r)[i] < KeysOf(r)[j] {
      assert keys[if i < pos then i else i + 1] < keys[if j < pos then j else j + 1];
    }
    forall x ensures LeafGet(r, x) == if x == items[pos].key then None else LeafGet(items, x) {
      DropGet(items, r, pos, x);
    }
  }

  lemma DropGet(items: seq<Entry>, r: seq<Entry>, pos: nat, x: Key)
    requires Sorted(KeysOf(items)) && Sorted(KeysOf(r)) && pos < |items| && |r| == |items| - 1
    requires forall i :: 0 <= i < |r| ==> r[i] == items[if i < pos then i else i + 1]
    ensures LeafGet(r, x) == if x == items[pos].key then None else LeafGet(items, x)
  {
    LeafGetIff(items, x);
    LeafGetIff(r, x);
    var keys := KeysOf(items);
    if x in keys {
      var i :| 0 <= i < |items| && items[i].key == x;
      if i < pos {
        assert r[i].key == x;
      } else if i > pos {
        assert r[i - 1].key == x;
      } else {
        forall j | 0 <= j < |r| ensures r[j].key != x {
          assert keys[if j < pos then j else j + 1] != keys[pos];
        }
      }
    } else {
      forall j | 0 <= j < |r| ensures r[j].key != x {
        assert keys[if j < pos then j else j + 1] in keys;
      }
    }
  }

  // ----- the tree -----------------------------------------------------------------------------

  class BTree {
    var t: Tree
    ghost var m: map<Key, Value>

    ghost predicate Valid()
      reads this
    {
      TreeOk(t, m)
    }

    constructor ()
      ensures Valid() && m == map[]
    {
      t := Tree(map[0 := Cell(Node(false, 0, []), Span(None, None))], 0, 1);
      m := map[];
    }

    /** btnode_smo: a full node is split, a small one is merged with a neighbour if the two fit. */
    method Smo(k: Key, at: At) returns (n: Id)
      requires Valid() && Reached(t, k, at)
      modifies this`t
      ensures Valid() && Stop(t, n) == Adjust(old(t), k, at)
    {
      AdjustOk(t, k, at);
      AdjustHolds(t, m, k, at);
      if |t.cells[at.n].node.items| == CAPACITY {
        n := SplitFull(k, at);
      } else if at.parent.Some? && |t.cells[at.n].node.items| < MERGE_THRESHOLD {
        n := MergeSmall(at.n, at.parent.value, at.index);
      } else {
        n := at.n;
      }
    }

    method SplitFull(k: Key, at: At) returns (n: Id)
      requires ShapeOk(t) && Reached(t, k, at) && |t.cells[at.n].node.items| == CAPACITY
      modifies this`t
      ensures Stop(t, n) == Halve(old(t), k, at)
    {
      var sep, right := SepOf(t.cells[at.n]), t.unused;
      if at.parent.None? {
        t := SplitTop(t);
      } else {
        t := SplitUnder(t, at.parent.value, at.n);
      }
      n := if k >= sep then right else at.n;
    }

    method MergeSmall(n: Id, p: Id, index: nat) returns (n': Id)
      requires ShapeOk(t) && IsKid(t, p, index, n)
      modifies this`t
      ensures Stop(t, n') == Join(old(t), n, p, index)
    {
      assert CellOk(t, p);
      var items := t.cells[p].node.items;
      if index != 0 {
        assert KidOk(t.cells, t.cells[p], index - 1);
        var left := items[index - 1].val;
        if |t.cells[left].node.items| + |t.cells[n].node.items| < CAPACITY {
          t := MergeAt(t, p, index - 1, left, n);
          return left;
        }
      }
      if index + 1 < |items| {
        assert KidOk(t.cells, t.cells[p], index + 1);
        var right := items[index + 1].val;
        if |t.cells[n].node.items| + |t.cells[right].node.items| < CAPACITY {
          t := MergeAt(t, p, index, n, right);
        }
      }
      return n;
    }

    /** bt_findleaf: the leaf for the key, with room for one more entry. */
    method FindLeaf(k: Key) returns (n: Id)
      requires Valid()
      modifies this`t
      ensures Valid() && Stop(t, n) == Descended(old(t), k) && Adjusted(t, k, n, 0, false)
    {
      var at := At(t.root, None, 0);
      while at.n in t.cells && t.cells[at.n].node.inner
        invariant Valid() && Reached(t, k, at) && Arrive(t, k, at) == Arrive(old(t), k, At(old(t).root, None, 0))
        decreases if at.n in t.cells then t.cells[at.n].node.level else 0
      {
        AdjustOk(t, k, at);
        n := Smo(k, at);
        DownOk(t, k, n);
        var items := t.cells[n].node.items;
        var index := UbOf(items, k, 1) - 1;
        at := At(items[index].val, Some(n), index);
      }
      AdjustOk(t, k, at);
      assert CellOk(t, at.n);
      n := Smo(k, at);
    }

    method Find(k: Key) returns (r: Option<Value>)
      requires Valid()
      modifies this`t
      ensures Valid() && r == MapGet(m, k)
    {
      var n := FindLeaf(k);
      assert CellOk(t, n) && Holds(t, n, m);
      var items := t.cells[n].node.items;
      var pos := LbOf(items, k, 0);
      LeafFound(items, k, pos);
      return if pos < |items| && items[pos].key == k then Some(items[pos].val) else None;
    }

    method Put(n: Id, k: Key, v: Value)
      requires Valid() && Adjusted(t, k, n, 0, false)
      modifies this
      ensures Valid() && m == old(m)[k := v]
    {
      assert CellOk(t, n);
      PutItems(t.cells[n].node.items, t.cells[n].span, k, v);
      WriteOk(t, m, n, LeafPut(t.cells[n].node.items, k, v), k, m[k := v]);
      t := WriteLeaf(t, n, LeafPut(t.cells[n].node.items, k, v));
      m := m[k := v];
    }

    method Insert(k: Key, v: Value) returns (ok: bool)
      requires Valid()
      modifies this
      ensures Valid() && ok == (k !in old(m))
      ensures m == if ok then old(m)[k := v] else old(m)
    {
      var n := FindLeaf(k);
      assert CellOk(t, n) && Holds(t, n, m);
      var items := t.cells[n].node.items;
      var pos := LbOf(items, k, 0);
      LeafFound(items, k, pos);
      if pos < |items| && items[pos].key == k {
        return false;
      }
      Put(n, k, v);
      return true;
    }

    /** Returns whether the key was new. */
    method Upsert(k: Key, v: Value) returns (inserted: bool)
      requires Valid()
      modifies this
      ensures Valid() && m == old(m)[k := v] && inserted == (k !in old(m))
    {
      var n := FindLeaf(k);
      assert CellOk(t, n) && Holds(t, n, m);
      var items := t.cells[n].node.items;
      var pos := LbOf(items, k, 0);
      LeafFound(items, k, pos);
      inserted := items == [] || !(pos < |items| && items[pos].key == k);
      Put(n, k, v);
    }

    /** None stands for the failed assertion that the leaf is not empty. It fails exactly if the leaf for
        the key is empty and does not take over the entries of a neighbour on the way down; the key is
        missing then. */
    method Remove(k: Key) returns (r: Option<bool>)
      requires Valid()
      modifies this
      ensures Valid() && m == old(m) - {k}
      ensures r.None? <==> EmptyAt(old(t), k) && !Refills(old(t), k)
      ensures r.None? ==> k !in old(m)
      ensures r.Some? ==> r.value == (k in old(m))
    {
      DescendedEmpty(t, k);
      var n := FindLeaf(k);
      if t.cells[n].node.items == [] {
        assert Holds(t, n, m) && LeafGet(t.cells[n].node.items, k) == None;
        return None;
      }
      var found := Drop(n, k);
      return Some(found);
    }

    /** btnode_remove on the leaf for the key. */
    method Drop(n: Id, k: Key) returns (found: bool)
      requires Valid() && Adjusted(t, k, n, 0, false)
      modifies this
      ensures Valid() && m == old(m) - {k} && found == (k in old(m))
    {
      assert CellOk(t, n) && Holds(t, n, m);
      var items := t.cells[n].node.items;
      var pos := LbOf(items, k, 0);
      LeafFound(items, k, pos);
      found := pos < |items| && items[pos].key == k;
      if found {
        DropItems(items, t.cells[n].span, pos);
        WriteOk(t, m, n, Without(items, pos), k, m - {k});
        t := WriteLeaf(t, n, Without(items, pos));
        m := m - {k};
      }
    }
  }

  // ----- an empty leaf in a tree that is not empty --------------------------------------------

  function FullItems(): (items: seq<Entry>)
    ensures |items| == 16 && forall i :: 0 <= i < 16 ==> items[i] == Entry(100 + i, 7)
  {
    seq(16, i requires 0 <= i < 16 => Entry(100 + i, 7))
  }

  function LopsidedTree(): Tree {
    Tree(map[0 := Cell(Node(true, 1, [Entry(0, 1), Entry(100, 2)]), Span(None, None)),
             1 := Cell(Node(false, 0, []), Span(None, Some(100))),
             2 := Cell(Node(false, 0, FullItems()), Span(Some(100), None))], 0, 3)
  }

  function LopsidedMap(): map<Key, Value> {
    map k | k in KeysOf(FullItems()) :: 7
  }

  lemma FullAgrees()
    ensures Sorted(KeysOf(FullItems())) && forall k :: LeafGet(FullItems(), k) == MapGet(LopsidedMap(), k)
    ensures forall k :: k in LopsidedMap() ==> 100 <= k
  {
    forall k ensures LeafGet(FullItems(), k) == MapGet(LopsidedMap(), k) {
      LeafGetIff(FullItems(), k);
    }
  }

  /** A well-formed tree with sixteen entries whose first leaf is empty and does not fit with its full
      neighbour: the descent for a key of that leaf changes nothing and ends in the empty leaf. */
  lemma LopsidedExample()
    ensures TreeOk(LopsidedTree(), LopsidedMap()) && 100 in LopsidedMap()
    ensures EmptyAt(LopsidedTree(), 0) && !Refills(LopsidedTree(), 0)
    ensures Descended(LopsidedTree(), 0) == Stop(LopsidedTree(), 1)
  {
    LopsidedShape();
    LopsidedHolds();
    LopsidedDescent();
    DescendedEmpty(LopsidedTree(), 0);
  }

  lemma LopsidedHolds()
    ensures MapOk(LopsidedTree(), LopsidedMap()) && 100 in LopsidedMap()
  {
    var t, m := LopsidedTree(), LopsidedMap();
    FullAgrees();
    assert KeysOf(FullItems())[0] == 100;
    assert LeafAgrees([], Span(None, Some(100)), m) by {
      assert forall k :: LeafGet([], k) == None;
    }
    assert Holds(t, 0, m) && Holds(t, 1, m) && Holds(t, 2, m);
  }

  lemma LopsidedDescent()
    requires ShapeOk(LopsidedTree())
    ensures Descended(LopsidedTree(), 0) == Stop(LopsidedTree(), 1)
  {
    var t := LopsidedTree();
    var start, kid := At(0, None, 0), At(1, Some(0), 0);
    assert Adjust(t, 0, start) == Stop(t, 0);
    assert UbOf(t.cells[0].node.items, 0, 1) == 1;
    AdjustOk(t, 0, start);
    DownOk(t, 0, 0);
    assert Down(t, 0, 0) == kid;
    assert Arrive(t, 0, kid) == Arrival(t, kid);
    assert Arrive(t, 0, start) == Arrive(t, 0, kid);
    assert MergeIndex(t, 0, 0) == None;
  }

  /** Removing a key that is not there from a tree that is not empty fails the assertion. */
  method RemoveFails() returns (b: BTree, r: Option<bool>)
    ensures b.Valid() && b.m == LopsidedMap() && 100 in b.m && r == None
  {
    LopsidedExample();
    b := new BTree();
    b.t, b.m := LopsidedTree(), LopsidedMap();
    FullAgrees();
    r := b.Remove(0);
    assert b.m == LopsidedMap();
  }

  lemma LopsidedShape()
    ensures ShapeOk(LopsidedTree())
  {
    var t := LopsidedTree();
    FullAgrees();
    var c := t.cells[0];
    assert KidOk(t.cells, c, 0) && KidOk(t.cells, c, 1);
    assert SepsOk(c.node.items, c.span);
    assert LeafOk([], Span(None, Some(100))) && LeafOk(FullItems(), Span(Some(100), None));
    assert CellOk(t, 0) && CellOk(t, 1) && CellOk(t, 2);
  }
}
