/** Structural steps keep the tree a search tree over the same map. */
module OlcTree {
  import opened Entries
  import opened OlcNode
  import opened OlcProtocol
  import opened OlcInvariant

  lemma ApartSpans(a: Span, b: Span, k: Key)
    requires Apart(a, b)
    ensures !(Covers(a, k) && Covers(b, k))
  {
  }

  lemma ChildCovers(span: Span, keys: seq<Key>, i: nat, k: Key)
    requires span.level > 0 && i <= |keys| && KeysInside(keys, span)
    requires Covers(ChildSpan(span, keys, i), k)
    ensures Covers(span, k)
  {
  }

  lemma ChildForCovers(span: Span, keys: seq<Key>, k: Key)
    requires span.level > 0 && Covers(span, k)
    ensures Covers(ChildSpan(span, keys, LowerBound(keys, k)), k)
  {
  }

  /** The child that covers a key is the one the search picks. */
  lemma ChildUnique(span: Span, keys: seq<Key>, i: nat, k: Key)
    requires span.level > 0 && i <= |keys| && Sorted(keys)
    requires Covers(ChildSpan(span, keys, i), k)
    ensures i == LowerBound(keys, k)
  {
    LowerBoundUnique(keys, k, i);
  }

  /** Descending one level keeps the key covered. */
  lemma Descend(s: State, m: map<Key, Value>, n: NodeId, k: Key, child: NodeId)
    requires TreeOk(s, m) && n in s.cells
    requires Covers(s.cells[n].span, k) && IsChild(s.cells[n].node, k, child)
    ensures child in s.cells && Covers(s.cells[child].span, k)
    ensures s.cells[child].span.level + 1 == s.cells[n].span.level
  {
    assert CellOk(s.cells, n);
    var node := s.cells[n].node;
    ChildForCovers(s.cells[n].span, node.keys, k);
  }

  /** A node whose span is not empty has one parent at most. */
  lemma SoleParent(s: State, m: map<Key, Value>, p: NodeId, q: NodeId, i: nat, j: nat, x: Key)
    requires TreeOk(s, m) && p in s.cells && q in s.cells
    requires s.cells[p].node.Inner? && i < |s.cells[p].node.children|
    requires s.cells[q].node.Inner? && j < |s.cells[q].node.children|
    requires s.cells[p].node.children[i] == s.cells[q].node.children[j]
    requires Covers(s.cells[s.cells[p].node.children[i]].span, x)
    ensures p == q && i == j
  {
    assert CellOk(s.cells, p) && CellOk(s.cells, q);
    var cp, cq := s.cells[p], s.cells[q];
    ChildCovers(cp.span, cp.node.keys, i, x);
    ChildCovers(cq.span, cq.node.keys, j, x);
    if p != q {
      ApartSpans(cp.span, cq.span, x);
    }
    ChildUnique(cp.span, cp.node.keys, i, x);
    ChildUnique(cq.span, cq.node.keys, j, x);
  }

  lemma TreeReword(s: State, s': State, m: map<Key, Value>)
    requires TreeOk(s, m)
    requires s'.root == s.root && s'.cells.Keys == s.cells.Keys
    requires forall n :: n in s.cells ==>
      s'.cells[n].node == s.cells[n].node && s'.cells[n].span == s.cells[n].span && !Obsolete(s'.cells[n].word)
    ensures TreeOk(s', m)
  {
    forall n | n in s'.cells
      ensures CellOk(s'.cells, n)
    {
      assert CellOk(s.cells, n);
    }
  }

  lemma AgreesPut(data: seq<Entry>, span: Span, m: map<Key, Value>, k: Key, v: Value)
    requires Sorted(KeysOf(data)) && Agrees(data, span, m)
    ensures Agrees(LeafPut(data, k, v), span, m[k := v])
  {
    forall x | Covers(span, x)
      ensures LeafGet(LeafPut(data, k, v), x) == MapGet(m[k := v], x)
    {
      LeafPutGet(data, k, v, x);
      assert LeafGet(data, x) == MapGet(m, x);
    }
  }

  /** Writing a covered key into a leaf with room is exactly the map update. */
  lemma TreeWrite(s: State, s': State, m: map<Key, Value>, n: NodeId, k: Key, v: Value)
    requires TreeOk(s, m) && n in s.cells
    requires s.cells[n].node.Leaf? && !s.cells[n].node.Full() && Covers(s.cells[n].span, k)
    requires s'.root == s.root
    requires s'.cells == s.cells[n := s.cells[n].(node := Leaf(LeafPut(s.cells[n].node.data, k, v)))]
    ensures TreeOk(s', m[k := v])
  {
    var cell := s.cells[n];
    assert CellOk(s.cells, n);
    LeafPutSorted(cell.node.data, k, v);
    AgreesPut(cell.node.data, cell.span, m, k, v);
    WrittenLeafOk(cell.node.data, cell.span, k, v);
    forall b | b in s'.cells
      ensures CellOk(s'.cells, b)
    {
      assert CellOk(s.cells, b);
    }
    forall b | b in s'.cells && s'.cells[b].node.Leaf?
      ensures Agrees(s'.cells[b].node.data, s'.cells[b].span, m[k := v])
    {
      if b != n {
        assert CellOk(s.cells, b);
        OtherLeafAgrees(s.cells[b].node.data, s.cells[b].span, cell.span, m, k, v);
      }
    }
  }

  lemma WrittenLeafOk(data: seq<Entry>, span: Span, k: Key, v: Value)
    requires LeafOk(data, span) && |data| < LEAF_MAX && Covers(span, k)
    ensures LeafOk(LeafPut(data, k, v), span)
  {
    LeafPutSorted(data, k, v);
    var put := LeafPut(data, k, v);
    forall i | 0 <= i < |put|
      ensures Covers(span, put[i].key)
    {
      assert put[i].key in KeysOf(put);
    }
  }

  lemma OtherLeafAgrees(data: seq<Entry>, span: Span, other: Span, m: map<Key, Value>, k: Key, v: Value)
    requires Agrees(data, span, m) && Apart(span, other) && Covers(other, k)
    ensures Agrees(data, span, m[k := v])
  {
    ApartSpans(span, other, k);
    forall x | Covers(span, x)
      ensures LeafGet(data, x) == MapGet(m[k := v], x)
    {
    }
  }

  // ---------------------------------------------------------------- splits

  /** A separator lies strictly inside the span it divides. */
  lemma SeparatorInside(cells: map<NodeId, Cell>, n: NodeId)
    requires n in cells && CellOk(cells, n) && cells[n].node.Full()
    ensures Splittable(cells[n].node)
    ensures var sep := Separator(cells[n].node); Covers(cells[n].span, sep) && cells[n].span.hi != Some(sep)
  {
    if cells[n].node.Leaf? {
      var data := cells[n].node.data;
      assert KeysOf(data)[LeafCut(data) - 1] < KeysOf(data)[|data| - 1];
    }
  }

  lemma SplitLeafLeft(data: seq<Entry>, span: Span)
    requires LeafOk(data, span) && |data| == LEAF_MAX
    ensures LeafOk(data[..LeafCut(data)], span.(hi := Some(data[LeafCut(data) - 1].key)))
  {
    var cut := LeafCut(data);
    var l, keys := data[..cut], KeysOf(data);
    assert KeysOf(l) == keys[..cut];
    assert KeysOf(l)[cut - 1] == keys[cut - 1];
    forall i | 0 <= i < |l|
      ensures Covers(span.(hi := Some(keys[cut - 1])), l[i].key)
    {
      assert l[i] == data[i] && keys[i] <= keys[cut - 1];
    }
  }

  lemma SplitLeafRight(data: seq<Entry>, span: Span)
    requires LeafOk(data, span) && |data| == LEAF_MAX
    ensures LeafOk(data[LeafCut(data)..], span.(lo := Some(data[LeafCut(data) - 1].key)))
  {
    var cut := LeafCut(data);
    var r, keys := data[cut..], KeysOf(data);
    assert KeysOf(r) == keys[cut..];
    forall i | 0 <= i < |r|
      ensures Covers(span.(lo := Some(keys[cut - 1])), r[i].key)
    {
      assert r[i] == data[cut + i] && keys[cut - 1] < keys[cut + i];
    }
    if span.hi.Some? {
      var i :| 0 <= i < |keys| && keys[i] == span.hi.value;
      assert keys[|keys| - 1] <= keys[i] by {
        assert Covers(span, data[|data| - 1].key);
      }
      assert i == |keys| - 1;
      assert KeysOf(r)[i - cut] == keys[i];
    }
  }

  lemma SplitLeafAgrees(data: seq<Entry>, span: Span, m: map<Key, Value>)
    requires LeafOk(data, span) && |data| == LEAF_MAX && Agrees(data, span, m)
    ensures var l, r, sep := data[..LeafCut(data)], data[LeafCut(data)..], Some(data[LeafCut(data) - 1].key);
            Agrees(l, span.(hi := sep), m) && Agrees(r, span.(lo := sep), m)
  {
    var cut := LeafCut(data);
    var sep := data[cut - 1].key;
    assert Covers(span, sep);
    forall x
      ensures Covers(span.(hi := Some(sep)), x) ==> LeafGet(data[..cut], x) == MapGet(m, x)
      ensures Covers(span.(lo := Some(sep)), x) ==> LeafGet(data[cut..], x) == MapGet(m, x)
    {
      LeafCutGet(data, cut, x);
      assert Covers(span, x) ==> LeafGet(data, x) == MapGet(m, x);
    }
  }

  // A node's children keep their spans while the nodes at its own level and above are rearranged.
  ghost predicate SameSpans(cells: map<NodeId, Cell>, cells': map<NodeId, Cell>, ids: seq<NodeId>) {
    forall i :: 0 <= i < |ids| && ids[i] in cells ==> ids[i] in cells' && cells'[ids[i]].span == cells[ids[i]].span
  }

  lemma InnerKept(cells: map<NodeId, Cell>, cells': map<NodeId, Cell>,
                  keys: seq<Key>, children: seq<NodeId>, span: Span)
    requires InnerOk(cells, keys, children, span) && SameSpans(cells, cells', children)
    ensures InnerOk(cells', keys, children, span)
  {
  }

  lemma SplitInnerOk(cells: map<NodeId, Cell>, keys: seq<Key>, children: seq<NodeId>, span: Span)
    requires InnerOk(cells, keys, children, span) && |keys| == INNER_FULL
    ensures var cut := InnerCut(keys);
            && InnerOk(cells, keys[..cut], children[..cut + 1], span.(hi := Some(keys[cut])))
            && InnerOk(cells, keys[cut + 1..], children[cut + 1..], span.(lo := Some(keys[cut])))
  {
    var cut := InnerCut(keys);
    var lk, rk := keys[..cut], keys[cut + 1..];
    var ls, rs := span.(hi := Some(keys[cut])), span.(lo := Some(keys[cut]));
    forall i | 0 <= i < cut + 1
      ensures ChildSpan(ls, lk, i) == ChildSpan(span, keys, i)
    {
    }
    forall i | 0 <= i < |children| - cut - 1
      ensures ChildSpan(rs, rk, i) == ChildSpan(span, keys, cut + 1 + i)
      ensures children[cut + 1..][i] == children[cut + 1 + i]
    {
    }
  }

  /** The parent with the separator and the new right child spliced in next to the split child. */
  lemma SpliceOk(cells: map<NodeId, Cell>, cells': map<NodeId, Cell>,
                 keys: seq<Key>, children: seq<NodeId>, span: Span, i: nat, sep: Key, right: NodeId)
    requires InnerOk(cells, keys, children, span) && |keys| < INNER_FULL && i < |children|
    requires Covers(ChildSpan(span, keys, i), sep) && ChildSpan(span, keys, i).hi != Some(sep)
    requires SameSpans(cells, cells', children[..i]) && SameSpans(cells, cells', children[i + 1..])
    requires children[i] in cells' && cells'[children[i]].span == ChildSpan(span, keys, i).(hi := Some(sep))
    requires right in cells' && cells'[right].span == ChildSpan(span, keys, i).(lo := Some(sep))
    ensures InnerOk(cells', InsertKey(keys, sep), InsertChild(keys, children, sep, right), span)
  {
    ChildUnique(span, keys, i, sep);
    ChildCovers(span, keys, i, sep);
    assert i < |keys| ==> sep < keys[i];
    assert sep !in keys;
    InsertKeySorted(keys, sep);
    var nk, nc := InsertKey(keys, sep), InsertChild(keys, children, sep, right);
    SplicedKeys(keys, sep, span);
    forall j | 0 <= j < |nc|
      ensures nc[j] in cells' && cells'[nc[j]].span == ChildSpan(span, nk, j)
    {
      SplicedSpan(span, keys, i, sep, j);
      if j < i {
        assert nc[j] == children[..i][j];
      } else if j > i + 1 {
        assert nc[j] == children[i + 1..][j - i - 2] == children[j - 1];
      }
    }
  }

  lemma SplicedSpan(span: Span, keys: seq<Key>, i: nat, sep: Key, j: nat)
    requires span.level > 0 && i == LowerBound(keys, sep) && j <= |keys| + 1
    ensures var nk := InsertKey(keys, sep);
            && (j < i ==> ChildSpan(span, nk, j) == ChildSpan(span, keys, j))
            && (j == i ==> ChildSpan(span, nk, j) == ChildSpan(span, keys, i).(hi := Some(sep)))
            && (j == i + 1 ==> ChildSpan(span, nk, j) == ChildSpan(span, keys, i).(lo := Some(sep)))
            && (j > i + 1 ==> ChildSpan(span, nk, j) == ChildSpan(span, keys, j - 1))
  {
  }

  lemma SplicedKeys(keys: seq<Key>, sep: Key, span: Span)
    requires KeysInside(keys, span) && Covers(span, sep) && span.hi != Some(sep)
    ensures KeysInside(InsertKey(keys, sep), span)
  {
    var nk, pos := InsertKey(keys, sep), LowerBound(keys, sep);
    forall j | 0 <= j < |nk|
      ensures Covers(span, nk[j]) && span.hi != Some(nk[j])
    {
      assert nk[j] == if j < pos then keys[j] else if j == pos then sep else keys[j - 1];
    }
  }

  lemma ApartSub(a: Span, b: Span, sep: Key)
    requires Apart(a, b) && Covers(a, sep)
    ensures Apart(a.(hi := Some(sep)), b) && Apart(a.(lo := Some(sep)), b)
  {
  }

  // What Halve does to the two halves, in any state that differs from s only above their children.
  ghost predicate Halved(s: State, s': State, n: NodeId, right: NodeId)
    requires n in s.cells && Splittable(s.cells[n].node)
  {
    var cell, sep := s.cells[n], Some(Separator(s.cells[n].node));
    && n in s'.cells && right in s'.cells && right !in s.cells
    && s'.cells[n] == cell.(node := LeftPart(cell.node), span := cell.span.(hi := sep))
    && s'.cells[right] == Cell(FRESH_WORD, RightPart(cell.node), cell.span.(lo := sep))
  }

  lemma HalvesOk(s: State, s': State, m: map<Key, Value>, n: NodeId, right: NodeId)
    requires TreeOk(s, m) && n in s.cells && s.cells[n].node.Full()
    requires Splittable(s.cells[n].node) && Halved(s, s', n, right)
    requires forall b :: b in s.cells && b != n ==> b in s'.cells && s'.cells[b].span == s.cells[b].span
    ensures CellOk(s'.cells, n) && CellOk(s'.cells, right)
    ensures s.cells[n].node.Leaf? ==> Agrees(s'.cells[n].node.data, s'.cells[n].span, m)
    ensures s.cells[n].node.Leaf? ==> Agrees(s'.cells[right].node.data, s'.cells[right].span, m)
  {
    var cell := s.cells[n];
    assert CellOk(s.cells, n);
    match cell.node
    case Leaf(data) =>
      SplitLeafLeft(data, cell.span);
      SplitLeafRight(data, cell.span);
      SplitLeafAgrees(data, cell.span, m);
    case Inner(keys, children) =>
      assert forall i :: 0 <= i < |children| ==> children[i] != n;
      InnerHalves(s.cells, s'.cells, keys, children, cell.span);
  }

  lemma InnerHalves(cells: map<NodeId, Cell>, cells': map<NodeId, Cell>,
                    keys: seq<Key>, children: seq<NodeId>, span: Span)
    requires InnerOk(cells, keys, children, span) && |keys| == INNER_FULL && SameSpans(cells, cells', children)
    ensures var cut := InnerCut(keys);
            && InnerOk(cells', keys[..cut], children[..cut + 1], span.(hi := Some(keys[cut])))
            && InnerOk(cells', keys[cut + 1..], children[cut + 1..], span.(lo := Some(keys[cut])))
  {
    InnerKept(cells, cells', keys, children, span);
    SplitInnerOk(cells', keys, children, span);
  }

  lemma HalvesApart(s: State, s': State, m: map<Key, Value>, n: NodeId, right: NodeId)
    requires TreeOk(s, m) && n in s.cells && s.cells[n].node.Full()
    requires Splittable(s.cells[n].node) && Halved(s, s', n, right)
    requires forall x :: x in s.cells && x != n ==> x in s'.cells && s'.cells[x].span == s.cells[x].span
    ensures PairwiseApart(s'.cells, s.cells.Keys + {right})
  {
    forall a, b | a in s.cells.Keys + {right} && b in s.cells.Keys + {right} && a != b
                  && s'.cells[a].span.level == s'.cells[b].span.level
      ensures Apart(s'.cells[a].span, s'.cells[b].span)
    {
      if a in s.cells {
        PairApart(s, s', m, n, right, a, b);
      } else {
        PairApart(s, s', m, n, right, b, a);
      }
    }
  }

  lemma PairApart(s: State, s': State, m: map<Key, Value>, n: NodeId, right: NodeId, a: NodeId, b: NodeId)
    requires TreeOk(s, m) && n in s.cells && s.cells[n].node.Full()
    requires Splittable(s.cells[n].node) && Halved(s, s', n, right)
    requires forall x :: x in s.cells && x != n ==> x in s'.cells && s'.cells[x].span == s.cells[x].span
    requires a in s.cells && b in s.cells.Keys + {right} && a != b
    requires s'.cells[a].span.level == s'.cells[b].span.level
    ensures Apart(s'.cells[a].span, s'.cells[b].span)
  {
    SeparatorInside(s.cells, n);
    var sep := Separator(s.cells[n].node);
    if b in s.cells {
      assert Apart(s.cells[a].span, s.cells[b].span);
      if a == n { ApartSub(s.cells[n].span, s.cells[b].span, sep); }
      if b == n { ApartSub(s.cells[n].span, s.cells[a].span, sep); }
    } else if a != n {
      assert Apart(s.cells[n].span, s.cells[a].span);
      ApartSub(s.cells[n].span, s.cells[a].span, sep);
    }
  }

  // A node that is not the parent of n does not notice the split.
  lemma BystanderOk(s: State, s': State, m: map<Key, Value>, n: NodeId, b: NodeId)
    requires TreeOk(s, m) && b in s.cells && b in s'.cells && s'.cells[b] == s.cells[b]
    requires forall x :: x in s.cells && x != n ==> x in s'.cells && s'.cells[x].span == s.cells[x].span
    requires s.cells[b].node.Inner? ==> n !in s.cells[b].node.children
    ensures CellOk(s'.cells, b)
  {
    assert CellOk(s.cells, b);
    if s.cells[b].node.Inner? {
      InnerKept(s.cells, s'.cells, s.cells[b].node.keys, s.cells[b].node.children, s.cells[b].span);
    }
  }

  // The cells after a split under parent p.
  ghost predicate SplitAt(s: State, s': State, p: NodeId, n: NodeId, right: NodeId)
    requires p in s.cells && n in s.cells && Splittable(s.cells[n].node)
    requires s.cells[p].node.Inner? && |s.cells[p].node.children| == |s.cells[p].node.keys| + 1
  {
    var cp, sep := s.cells[p], Separator(s.cells[n].node);
    var node := Inner(InsertKey(cp.node.keys, sep), InsertChild(cp.node.keys, cp.node.children, sep, right));
    && Halved(s, s', n, right)
    && s'.root == s.root && s'.cells.Keys == s.cells.Keys + {right}
    && s'.cells[p] == cp.(node := node)
    && forall b :: b in s.cells && b != n && b != p ==> s'.cells[b] == s.cells[b]
  }

  lemma SplitParentOk(s: State, s': State, m: map<Key, Value>, p: NodeId, n: NodeId, right: NodeId, i: nat)
    requires TreeOk(s, m) && n in s.cells && s.cells[n].node.Full() && p in s.cells
    requires s.cells[p].node.Inner? && !s.cells[p].node.Full()
    requires |s.cells[p].node.children| == |s.cells[p].node.keys| + 1
    requires i < |s.cells[p].node.children| && s.cells[p].node.children[i] == n
    requires Splittable(s.cells[n].node) && SplitAt(s, s', p, n, right)
    ensures CellOk(s'.cells, p)
  {
    assert CellOk(s.cells, p);
    var cp, sep := s.cells[p], Separator(s.cells[n].node);
    SeparatorInside(s.cells, n);
    forall j | 0 <= j < |cp.node.children| && j != i
      ensures cp.node.children[j] != n
    {
      if cp.node.children[j] == n {
        SoleParent(s, m, p, p, i, j, sep);
      }
    }
    forall j | 0 <= j < |cp.node.children| && j != i
      ensures s'.cells[cp.node.children[j]].span == s.cells[cp.node.children[j]].span
    {
    }
    SpliceOk(s.cells, s'.cells, cp.node.keys, cp.node.children, cp.span, i, sep, right);
  }

  /** Splitting a full node under a parent with room keeps the tree and the map. */
  lemma TreeSplitUnder(s: State, s': State, m: map<Key, Value>, p: NodeId, n: NodeId, right: NodeId, i: nat)
    requires TreeOk(s, m) && n in s.cells && s.cells[n].node.Full() && p in s.cells
    requires s.cells[p].node.Inner? && !s.cells[p].node.Full()
    requires |s.cells[p].node.children| == |s.cells[p].node.keys| + 1
    requires i < |s.cells[p].node.children| && s.cells[p].node.children[i] == n
    requires Splittable(s.cells[n].node) && SplitAt(s, s', p, n, right)
    ensures TreeOk(s', m)
  {
    assert CellOk(s.cells, p);
    HalvesOk(s, s', m, n, right);
    HalvesApart(s, s', m, n, right);
    SplitParentOk(s, s', m, p, n, right, i);
    forall b | b in s.cells && b != n && b != p
      ensures CellOk(s'.cells, b)
    {
      NotChildOf(s, m, p, n, i, b);
      BystanderOk(s, s', m, n, b);
    }
    assert s.root != n by {
      assert s.cells[n].span.level < s.cells[p].span.level;
    }
  }

  lemma NotChildOf(s: State, m: map<Key, Value>, p: NodeId, n: NodeId, i: nat, b: NodeId)
    requires TreeOk(s, m) && n in s.cells && s.cells[n].node.Full() && p in s.cells && b in s.cells && b != p
    requires s.cells[p].node.Inner? && i < |s.cells[p].node.children| && s.cells[p].node.children[i] == n
    ensures s.cells[b].node.Inner? ==> n !in s.cells[b].node.children
  {
    if s.cells[b].node.Inner? && n in s.cells[b].node.children {
      var j :| 0 <= j < |s.cells[b].node.children| && s.cells[b].node.children[j] == n;
      SeparatorInside(s.cells, n);
      SoleParent(s, m, p, b, i, j, Separator(s.cells[n].node));
    }
  }

  ghost predicate GrownAt(s: State, s': State, n: NodeId, right: NodeId, top: NodeId)
    requires n in s.cells && Splittable(s.cells[n].node)
  {
    var cell := s.cells[n];
    && Halved(s, s', n, right)
    && top !in s.cells && top != right
    && s'.root == top && s'.cells.Keys == s.cells.Keys + {right, top}
    && s'.cells[top] == Cell(FRESH_WORD, Inner([Separator(cell.node)], [n, right]),
                             cell.span.(level := cell.span.level + 1))
    && forall b :: b in s.cells && b != n ==> s'.cells[b] == s.cells[b]
  }

  /** Splitting a full root under a new root keeps the tree and the map. */
  lemma TreeSplitTop(s: State, s': State, m: map<Key, Value>, n: NodeId, right: NodeId, top: NodeId)
    requires TreeOk(s, m) && n == s.root && n in s.cells && s.cells[n].node.Full()
    requires Splittable(s.cells[n].node) && GrownAt(s, s', n, right, top)
    ensures TreeOk(s', m)
  {
    HalvesOk(s, s', m, n, right);
    HalvesApart(s, s', m, n, right);
    TopOk(s, s', n, right, top);
    TopLevels(s, s', m, n, right, top);
    forall b | b in s.cells && b != n
      ensures CellOk(s'.cells, b)
    {
      assert CellOk(s.cells, b);
      BystanderOk(s, s', m, n, b);
    }
  }

  lemma TopLevels(s: State, s': State, m: map<Key, Value>, n: NodeId, right: NodeId, top: NodeId)
    requires TreeOk(s, m) && n == s.root && Splittable(s.cells[n].node) && GrownAt(s, s', n, right, top)
    requires PairwiseApart(s'.cells, s.cells.Keys + {right})
    ensures forall b :: b in s.cells.Keys + {right} ==> s'.cells[b].span.level < s'.cells[top].span.level
    ensures PairwiseApart(s'.cells, s'.cells.Keys)
  {
    forall b | b in s.cells.Keys + {right}
      ensures s'.cells[b].span.level < s'.cells[top].span.level
    {
      if b in s.cells {
        assert s.cells[b].span.level <= s.cells[n].span.level;
      }
    }
  }

  lemma TopOk(s: State, s': State, n: NodeId, right: NodeId, top: NodeId)
    requires n in s.cells && CellOk(s.cells, n) && s.cells[n].node.Full()
    requires Splittable(s.cells[n].node) && GrownAt(s, s', n, right, top)
    ensures CellOk(s'.cells, top)
  {
    SeparatorInside(s.cells, n);
    var sep, span := Separator(s.cells[n].node), s'.cells[top].span;
    assert ChildSpan(span, [sep], 0) == s'.cells[n].span;
    assert ChildSpan(span, [sep], 1) == s'.cells[right].span;
  }
}
