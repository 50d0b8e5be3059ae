/** Splits, root splits and merges on the whole tree, and writes to a leaf. */
module RtmSmo {
  import opened Entries
  import opened RtmNode
  import opened RtmTree

  /** Kid `i` of `p` is `n`. */
  ghost predicate IsKid(t: Tree, p: Id, i: nat, n: Id) {
    && p in t.cells && n in t.cells && t.cells[p].node.inner
    && i < |t.cells[p].node.items| && t.cells[p].node.items[i].val == n
  }

  lemma KidFacts(t: Tree, p: Id, i: nat, n: Id)
    requires ShapeOk(t) && IsKid(t, p, i, n)
    ensures t.cells[n].span == KidSpan(t.cells[p].span, t.cells[p].node.items, i)
    ensures t.cells[n].node.level + 1 == t.cells[p].node.level && n != p && n != t.root
    ensures NodeOk(t.cells, t.cells[p]) && NodeOk(t.cells, t.cells[n])
    ensures t.cells[p].node.level <= t.cells[t.root].node.level
  {
    assert CellOk(t, p) && CellOk(t, n) && KidOk(t.cells, t.cells[p], i);
  }

  // ----- frames -------------------------------------------------------------------------------

  /** Cells that are kids of a node stay as they are for it: `n` and `gone` are kids of `p` only, and the
      others that changed kept their span and level. */
  ghost predicate Kept(t: Tree, t': Tree, id: Id) {
    && id in t.cells && id in t'.cells
    && t'.cells[id].span == t.cells[id].span && t'.cells[id].node.level == t.cells[id].node.level
  }

  lemma BystanderOk(t: Tree, t': Tree, b: Id)
    requires ShapeOk(t) && b in t.cells
    requires t.cells[b].node.inner ==> forall i {:trigger t.cells[b].node.items[i]} ::
        0 <= i < |t.cells[b].node.items| ==> Kept(t, t', t.cells[b].node.items[i].val)
    ensures NodeOk(t'.cells, t.cells[b])
  {
    assert CellOk(t, b);
    KidsStay(t.cells, t'.cells, t.cells[b]);
  }

  /** A node other than `p` does not have the kid of `p` among its kids. */
  lemma NotMine(t: Tree, p: Id, i: nat, n: Id, b: Id, j: nat)
    requires ShapeOk(t) && IsKid(t, p, i, n) && b in t.cells && t.cells[b].node.inner && j < |t.cells[b].node.items|
    ensures t.cells[b].node.items[j].val == n ==> b == p && j == i
    ensures t.cells[b].node.items[j].val in t.cells
  {
    assert CellOk(t, b) && KidOk(t.cells, t.cells[b], j);
    if t.cells[b].node.items[j].val == n {
      SoleParent(t, p, b, i, j);
    }
  }

  // ----- a split under a parent ---------------------------------------------------------------

  function SplitUnder(t: Tree, p: Id, n: Id): Tree
    requires p in t.cells && n in t.cells && |t.cells[n].node.items| >= 2
  {
    var c, cp, r := t.cells[n], t.cells[p], t.unused;
    var up := cp.(node := cp.node.(items := Inserted(cp.node.items, true, Entry(SepOf(c), r))));
    Tree(t.cells[n := LeftOf(c)][r := RightOf(c)][p := up], t.root, t.unused + 1)
  }

  lemma SplitParent(t: Tree, p: Id, i: nat, n: Id)
    requires ShapeOk(t) && IsKid(t, p, i, n) && |t.cells[n].node.items| >= 2 && |t.cells[p].node.items| < CAPACITY
    ensures var c, cp := t.cells[n], t.cells[p];
            Inserted(cp.node.items, true, Entry(SepOf(c), t.unused)) ==
                Spliced(cp.node.items, i + 1, Entry(SepOf(c), t.unused))
    ensures NodeOk(SplitUnder(t, p, n).cells, SplitUnder(t, p, n).cells[p])
  {
    KidFacts(t, p, i, n);
    var c, cp, r, t' := t.cells[n], t.cells[p], t.unused, SplitUnder(t, p, n);
    var items, e := cp.node.items, Entry(SepOf(c), t.unused);
    SepInside(t.cells, c);
    SepPlace(items, cp.span, i, e.key);
    SplicedSeps(items, cp.span, i, e);
    var up := t'.cells[p];
    assert up.node.items == Spliced(items, i + 1, e);
    UnusedFree(t);
    forall j | 0 <= j < |up.node.items| ensures KidOk(t'.cells, up, j) {
      SplicedSpan(items, cp.span, i, e, j);
      if j != i + 1 {
        var o := if j <= i then j else j - 1;
        assert KidOk(t.cells, cp, o);
        NotMine(t, p, i, n, p, o);
      }
    }
  }

  lemma UnusedFree(t: Tree)
    requires ShapeOk(t)
    ensures t.unused !in t.cells
  {
    forall id | id in t.cells ensures id != t.unused { assert CellOk(t, id); }
  }

  lemma SplitOthers(t: Tree, p: Id, i: nat, n: Id, b: Id)
    requires ShapeOk(t) && IsKid(t, p, i, n) && |t.cells[n].node.items| >= 2 && b in t.cells && b != p
    ensures NodeOk(SplitUnder(t, p, n).cells, t.cells[b])
    ensures b == n ==> NodeOk(SplitUnder(t, p, n).cells, LeftOf(t.cells[n]))
    ensures b == n ==> NodeOk(SplitUnder(t, p, n).cells, RightOf(t.cells[n]))
  {
    var t' := SplitUnder(t, p, n);
    UnusedFree(t);
    if t.cells[b].node.inner {
      forall j {:trigger t.cells[b].node.items[j]} | 0 <= j < |t.cells[b].node.items|
        ensures Kept(t, t', t.cells[b].node.items[j].val) {
        NotMine(t, p, i, n, b, j);
      }
    }
    BystanderOk(t, t', b);
    if b == n { HalvesOk(t'.cells, t.cells[n]); }
  }

  lemma SubApart(a: Span, b: Span, a': Span)
    requires SpansApart(a, b)
    requires a'.lo == a.lo || (a'.lo.Some? && Inside(a, a'.lo.value))
    requires a'.hi == a.hi || (a'.hi.Some? && Inside(a, a'.hi.value))
    ensures SpansApart(a', b) && SpansApart(b, a')
  {
  }

  lemma SplitApart(t: Tree, t': Tree, n: Id, a: Id, b: Id)
    requires ShapeOk(t) && n in t.cells && |t.cells[n].node.items| >= 2 && t.unused in t'.cells && n in t'.cells
    requires t'.cells[n] == LeftOf(t.cells[n]) && t'.cells[t.unused] == RightOf(t.cells[n])
    requires forall x :: x in t.cells && x != n ==> Kept(t, t', x)
    requires a in t'.cells && b in t'.cells && (a in t.cells || a == t.unused) && (b in t.cells || b == t.unused)
    ensures PairApart(t'.cells, a, b)
  {
    UnusedFree(t);
    assert CellOk(t, n);
    SepInside(t.cells, t.cells[n]);
    var a', b' := if a == t.unused then n else a, if b == t.unused then n else b;
    assert PairApart(t.cells, a', b');
    if a' != b' && t.cells[a'].node.level == t.cells[b'].node.level {
      if a' == n { SubApart(t.cells[n].span, t.cells[b'].span, t'.cells[a].span); }
      if b' == n { SubApart(t.cells[n].span, t.cells[a'].span, t'.cells[b].span); }
    }
  }

  lemma SplitUnderOk(t: Tree, m: map<Key, Value>, p: Id, i: nat, n: Id)
    requires TreeOk(t, m) && IsKid(t, p, i, n) && |t.cells[n].node.items| >= 2 && |t.cells[p].node.items| < CAPACITY
    ensures TreeOk(SplitUnder(t, p, n), m)
  {
    SplitUnderShape(t, p, i, n);
    KidFacts(t, p, i, n);
    UnusedFree(t);
    SplitHolds(t, SplitUnder(t, p, n), m, n);
  }

  lemma SplitUnderShape(t: Tree, p: Id, i: nat, n: Id)
    requires ShapeOk(t) && IsKid(t, p, i, n) && |t.cells[n].node.items| >= 2 && |t.cells[p].node.items| < CAPACITY
    ensures ShapeOk(SplitUnder(t, p, n))
  {
    var t' := SplitUnder(t, p, n);
    KidFacts(t, p, i, n);
    UnusedFree(t);
    SplitParent(t, p, i, n);
    forall id | id in t'.cells ensures CellOk(t', id) {
      if id != p { SplitOthers(t, p, i, n, if id == t.unused then n else id); }
      assert CellOk(t, if id == t.unused then n else id);
    }
    forall a, b | a in t'.cells && b in t'.cells ensures PairApart(t'.cells, a, b) {
      SplitApart(t, t', n, a, b);
    }
  }

  lemma SplitHolds(t: Tree, t': Tree, m: map<Key, Value>, n: Id)
    requires TreeOk(t, m) && n in t.cells && |t.cells[n].node.items| >= 2 && n in t'.cells && t.unused in t'.cells
    requires t'.cells[n] == LeftOf(t.cells[n]) && t'.cells[t.unused] == RightOf(t.cells[n])
    requires forall x :: x in t'.cells && x != n && x != t.unused ==>
        t'.cells[x].node.inner || (x in t.cells && t'.cells[x] == t.cells[x])
    ensures MapOk(t', m)
  {
    var c := t.cells[n];
    assert CellOk(t, n) && Holds(t, n, m);
    SepInside(t.cells, c);
    if !c.node.inner { HalvesAgree(c.node.items, c.span, m, Mid(c.node.items)); }
    forall id | id in t'.cells ensures Holds(t', id, m) {
      if id in t.cells { assert Holds(t, id, m); }
    }
  }

  // ----- a split of the root ------------------------------------------------------------------

  function SplitTop(t: Tree): Tree
    requires t.root in t.cells && |t.cells[t.root].node.items| >= 2
  {
    var n, c, r, top := t.root, t.cells[t.root], t.unused, t.unused + 1;
    var items := Inserted(Inserted([], true, Entry(c.node.items[0].key, n)), true, Entry(SepOf(c), r));
    Tree(t.cells[n := LeftOf(c)][r := RightOf(c)][top := Cell(Node(true, c.node.level + 1, items), Span(None, None))],
        top, t.unused + 2)
  }

  lemma TopItems(a: Entry, b: Entry)
    ensures Inserted(Inserted([], true, a), true, b) == [a, b]
  {
    var none: seq<Entry> := [];
    assert Inserted(none, true, a) == [a];
  }

  lemma TopOk(t: Tree)
    requires ShapeOk(t) && |t.cells[t.root].node.items| >= 2
    ensures NodeOk(SplitTop(t).cells, SplitTop(t).cells[t.unused + 1])
  {
    BelowUnused(t);
    var c, t' := t.cells[t.root], SplitTop(t);
    var top := t'.cells[t.unused + 1];
    TopItems(Entry(c.node.items[0].key, t.root), Entry(SepOf(c), t.unused));
    assert KidOk(t'.cells, top, 0) && KidOk(t'.cells, top, 1);
  }

  lemma TopOthers(t: Tree, b: Id)
    requires ShapeOk(t) && |t.cells[t.root].node.items| >= 2 && b in t.cells
    ensures NodeOk(SplitTop(t).cells, t.cells[b])
    ensures b == t.root ==>
        NodeOk(SplitTop(t).cells, LeftOf(t.cells[b])) && NodeOk(SplitTop(t).cells, RightOf(t.cells[b]))
  {
    var t' := SplitTop(t);
    BelowUnused(t);
    if t.cells[b].node.inner {
      assert CellOk(t, b);
      forall j {:trigger t.cells[b].node.items[j]} | 0 <= j < |t.cells[b].node.items|
        ensures Kept(t, t', t.cells[b].node.items[j].val) {
        assert KidOk(t.cells, t.cells[b], j);
        RootAlone(t, b, j);
      }
    }
    BystanderOk(t, t', b);
    if b == t.root { HalvesOk(t'.cells, t.cells[b]); }
  }

  lemma BelowUnused(t: Tree)
    requires ShapeOk(t)
    ensures forall id :: id in t.cells ==> id < t.unused
  {
    forall id | id in t.cells ensures id < t.unused { assert CellOk(t, id); }
  }

  lemma SplitTopOk(t: Tree, m: map<Key, Value>)
    requires TreeOk(t, m) && |t.cells[t.root].node.items| >= 2
    ensures TreeOk(SplitTop(t), m)
  {
    SplitTopShape(t);
    BelowUnused(t);
    SplitHolds(t, SplitTop(t), m, t.root);
  }

  lemma SplitTopShape(t: Tree)
    requires ShapeOk(t) && |t.cells[t.root].node.items| >= 2
    ensures ShapeOk(SplitTop(t))
  {
    var t', top := SplitTop(t), t.unused + 1;
    BelowUnused(t);
    TopOk(t);
    forall id | id in t'.cells ensures CellOk(t', id) {
      if id != top {
        var b := if id == t.unused then t.root else id;
        assert CellOk(t, b);
        TopOthers(t, b);
      }
    }
    forall a, b | a in t'.cells && b in t'.cells ensures PairApart(t'.cells, a, b) {
      if a == top || b == top {
        assert CellOk(t, if a == top then (if b == top || b == t.unused then t.root else b)
            else if a == t.unused then t.root else a);
      } else {
        SplitApart(t, t', t.root, a, b);
      }
    }
  }

  // ----- a merge ------------------------------------------------------------------------------

  function Joined(l: Cell, r: Cell): Cell {
    Cell(l.node.(items := l.node.items + r.node.items), Span(l.span.lo, r.span.hi))
  }

  /** Kid `j + 1` of `p` is merged into kid `j`. */
  function MergeAt(t: Tree, p: Id, j: nat, left: Id, right: Id): Tree
    requires p in t.cells && left in t.cells && right in t.cells && j + 1 < |t.cells[p].node.items|
  {
    var cp := t.cells[p];
    var down := cp.(node := cp.node.(items := Without(cp.node.items, j + 1)));
    Tree((t.cells - {right})[left := Joined(t.cells[left], t.cells[right])][p := down], t.root, t.unused)
  }

  ghost predicate Neighbours(t: Tree, p: Id, j: nat, left: Id, right: Id) {
    && IsKid(t, p, j, left) && IsKid(t, p, j + 1, right)
    && |t.cells[left].node.items| + |t.cells[right].node.items| < CAPACITY
  }

  lemma NeighbourFacts(t: Tree, p: Id, j: nat, left: Id, right: Id)
    requires ShapeOk(t) && Neighbours(t, p, j, left, right)
    ensures left != right && left != p && right != p && right != t.root
    ensures t.cells[left].span.hi.Some? && t.cells[right].span.lo == t.cells[left].span.hi
    ensures t.cells[left].node.level == t.cells[right].node.level
    ensures t.cells[left].node.inner == t.cells[right].node.inner
    ensures NodeOk(t.cells, t.cells[left]) && NodeOk(t.cells, t.cells[right])
  {
    KidFacts(t, p, j, left);
    KidFacts(t, p, j + 1, right);
  }

  lemma JoinedLeaf(l: seq<Entry>, r: seq<Entry>, a: Span, b: Span)
    requires LeafOk(l, a) && LeafOk(r, b) && a.hi.Some? && b.lo == a.hi && Proper(a) && Proper(b)
    ensures LeafOk(l + r, Span(a.lo, b.hi))
  {
    JoinRuns(l, r, 0);
  }

  lemma JoinedSeps(l: seq<Entry>, r: seq<Entry>, a: Span, b: Span)
    requires SepsOk(l, a) && SepsOk(r, b) && a.hi.Some? && b.lo == a.hi && Proper(a) && Proper(b)
    ensures SepsOk(l + r, Span(a.lo, b.hi))
  {
    var all := l + r;
    forall i, j | 1 <= i < j < |all| ensures all[i].key < all[j].key {
      if i < |l| <= j {
        assert all[i].key < a.hi.value && all[j] == r[j - |l|] && a.hi.value <= r[j - |l|].key;
      }
    }
    forall i | 1 <= i < |all| ensures Inside(Span(a.lo, b.hi), all[i].key) {
      if i >= |l| { assert all[i] == r[i - |l|]; }
    }
  }

  lemma JoinedKid(l: Cell, r: Cell, i: nat)
    requires SepsOk(l.node.items, l.span) && SepsOk(r.node.items, r.span) && l.span.hi.Some? && r.span.lo == l.span.hi
    requires i < |l.node.items| + |r.node.items|
    ensures var all, span := l.node.items + r.node.items, Span(l.span.lo, r.span.hi);
            KidSpan(span, all, i) == if i < |l.node.items| then KidSpan(l.span, l.node.items, i)
                                     else KidSpan(r.span, r.node.items, i - |l.node.items|)
  {
  }

  lemma JoinedOk(cells: map<Id, Cell>, l: Cell, r: Cell)
    requires NodeOk(cells, l) && NodeOk(cells, r) && l.span.hi.Some? && r.span.lo == l.span.hi
    requires l.node.level == r.node.level && l.node.inner == r.node.inner && |l.node.items| + |r.node.items| < CAPACITY
    ensures NodeOk(cells, Joined(l, r))
  {
    var c := Joined(l, r);
    if l.node.inner {
      JoinedSeps(l.node.items, r.node.items, l.span, r.span);
      forall i | 0 <= i < |c.node.items| ensures KidOk(cells, c, i) {
        JoinedKid(l, r, i);
        if i < |l.node.items| { assert KidOk(cells, l, i); } else { assert KidOk(cells, r, i - |l.node.items|); }
      }
    } else {
      JoinedLeaf(l.node.items, r.node.items, l.span, r.span);
    }
  }

  lemma MergeOthers(t: Tree, p: Id, j: nat, left: Id, right: Id, b: Id)
    requires ShapeOk(t) && Neighbours(t, p, j, left, right) && b in t.cells && b != p
    ensures NodeOk(MergeAt(t, p, j, left, right).cells, t.cells[b])
  {
    var t' := MergeAt(t, p, j, left, right);
    if t.cells[b].node.inner {
      forall i {:trigger t.cells[b].node.items[i]} | 0 <= i < |t.cells[b].node.items|
        ensures Kept(t, t', t.cells[b].node.items[i].val) {
        NotMine(t, p, j, left, b, i);
        NotMine(t, p, j + 1, right, b, i);
      }
    }
    BystanderOk(t, t', b);
  }

  lemma WithoutSpan(items: seq<Entry>, s: Span, j: nat, i: nat)
    requires j + 1 < |items| && i < |items| - 1
    ensures var r := Without(items, j + 1);
            && r[i] == items[if i <= j then i else i + 1]
            && (i != j ==> KidSpan(s, r, i) == KidSpan(s, items, if i <= j then i else i + 1))
            && (i == j ==> KidSpan(s, r, i) == Span(KidSpan(s, items, j).lo, KidSpan(s, items, j + 1).hi))
  {
  }

  lemma WithoutSeps(items: seq<Entry>, s: Span, j: nat)
    requires SepsOk(items, s) && j + 1 < |items|
    ensures SepsOk(Without(items, j + 1), s)
  {
    var r := Without(items, j + 1);
    assert forall i :: 0 <= i < |r| ==> r[i] == items[if i <= j then i else i + 1];
  }

  lemma MergeParent(t: Tree, p: Id, j: nat, left: Id, right: Id)
    requires ShapeOk(t) && Neighbours(t, p, j, left, right)
    ensures NodeOk(MergeAt(t, p, j, left, right).cells, MergeAt(t, p, j, left, right).cells[p])
  {
    KidFacts(t, p, j, left);
    KidFacts(t, p, j + 1, right);
    NeighbourFacts(t, p, j, left, right);
    var cp, t' := t.cells[p], MergeAt(t, p, j, left, right);
    var items, down := cp.node.items, t'.cells[p];
    WithoutSeps(items, cp.span, j);
    forall i | 0 <= i < |down.node.items| ensures KidOk(t'.cells, down, i) {
      WithoutSpan(items, cp.span, j, i);
      var o := if i <= j then i else i + 1;
      assert KidOk(t.cells, cp, o);
      NotMine(t, p, j, left, p, o);
      NotMine(t, p, j + 1, right, p, o);
    }
  }

  lemma JoinApart(a: Span, b: Span, x: Span)
    requires SpansApart(a, x) && SpansApart(b, x) && a.hi.Some? && b.lo == a.hi && Proper(a) && Proper(b) && Proper(x)
    ensures SpansApart(Span(a.lo, b.hi), x) && SpansApart(x, Span(a.lo, b.hi))
  {
  }

  lemma MergeApart(t: Tree, p: Id, j: nat, left: Id, right: Id, a: Id, b: Id)
    requires ShapeOk(t) && Neighbours(t, p, j, left, right)
    requires a in MergeAt(t, p, j, left, right).cells && b in MergeAt(t, p, j, left, right).cells
    ensures PairApart(MergeAt(t, p, j, left, right).cells, a, b)
  {
    NeighbourFacts(t, p, j, left, right);
    var cells := t.cells;
    assert PairApart(cells, a, b) && CellOk(t, a) && CellOk(t, b);
    if a == left && b != left {
      assert PairApart(cells, right, b);
      if cells[b].node.level == cells[left].node.level {
        JoinApart(cells[left].span, cells[right].span, cells[b].span);
      }
    } else if b == left && a != left {
      assert PairApart(cells, right, a) && PairApart(cells, left, a);
      if cells[a].node.level == cells[left].node.level {
        JoinApart(cells[left].span, cells[right].span, cells[a].span);
      }
    }
  }

  lemma JoinedAgrees(l: seq<Entry>, r: seq<Entry>, a: Span, b: Span, m: map<Key, Value>)
    requires LeafOk(l, a) && LeafOk(r, b) && a.hi.Some? && b.lo == a.hi && LeafAgrees(l, a, m) && LeafAgrees(r, b, m)
    ensures LeafAgrees(l + r, Span(a.lo, b.hi), m)
  {
    forall k | Covers(Span(a.lo, b.hi), k) ensures LeafGet(l + r, k) == MapGet(m, k) {
      JoinRuns(l, r, k);
      LeafGetIff(l, k);
      LeafGetIff(r, k);
      assert k < a.hi.value ==> Covers(a, k);
      assert a.hi.value <= k ==> Covers(b, k);
    }
  }

  lemma MergeCells(t: Tree, p: Id, j: nat, left: Id, right: Id, id: Id)
    requires ShapeOk(t) && Neighbours(t, p, j, left, right) && id in MergeAt(t, p, j, left, right).cells
    requires MergeAt(t, p, j, left, right).root in MergeAt(t, p, j, left, right).cells
    ensures CellOk(MergeAt(t, p, j, left, right), id)
  {
    var t' := MergeAt(t, p, j, left, right);
    NeighbourFacts(t, p, j, left, right);
    assert CellOk(t, id);
    if id == p {
      MergeParent(t, p, j, left, right);
    } else {
      MergeOthers(t, p, j, left, right, id);
      if id == left {
        MergeOthers(t, p, j, left, right, right);
        JoinedOk(t'.cells, t.cells[left], t.cells[right]);
      }
    }
  }

  lemma MergeOk(t: Tree, m: map<Key, Value>, p: Id, j: nat, left: Id, right: Id)
    requires TreeOk(t, m) && Neighbours(t, p, j, left, right)
    ensures TreeOk(MergeAt(t, p, j, left, right), m)
  {
    var t' := MergeAt(t, p, j, left, right);
    NeighbourFacts(t, p, j, left, right);
    KidFacts(t, p, j, left);
    MergeShape(t, p, j, left, right);
    forall id | id in t'.cells ensures Holds(t', id, m) {
      assert Holds(t, id, m);
      if id == left && !t.cells[left].node.inner {
        assert Holds(t, right, m);
        JoinedAgrees(t.cells[left].node.items, t.cells[right].node.items, t.cells[left].span, t.cells[right].span, m);
      }
    }
  }

  lemma MergeShape(t: Tree, p: Id, j: nat, left: Id, right: Id)
    requires ShapeOk(t) && Neighbours(t, p, j, left, right)
    ensures ShapeOk(MergeAt(t, p, j, left, right))
  {
    var t' := MergeAt(t, p, j, left, right);
    NeighbourFacts(t, p, j, left, right);
    KidFacts(t, p, j, left);
    forall id | id in t'.cells ensures CellOk(t', id) { MergeCells(t, p, j, left, right, id); }
    forall a, b | a in t'.cells && b in t'.cells
      ensures PairApart(t'.cells, a, b) { MergeApart(t, p, j, left, right, a, b); }
  }

  // ----- writing a leaf -----------------------------------------------------------------------

  function WriteLeaf(t: Tree, n: Id, items: seq<Entry>): Tree
    requires n in t.cells
  {
    t.(cells := t.cells[n := t.cells[n].(node := t.cells[n].node.(items := items))])
  }

  /** Changing one key of a leaf changes that key of the map. */
  lemma WriteOk(t: Tree, m: map<Key, Value>, n: Id, items: seq<Entry>, k: Key, m': map<Key, Value>)
    requires TreeOk(t, m) && n in t.cells && !t.cells[n].node.inner && Covers(t.cells[n].span, k)
    requires LeafOk(items, t.cells[n].span) && |items| <= CAPACITY
    requires forall x :: LeafGet(items, x) == if x == k then MapGet(m', k) else LeafGet(t.cells[n].node.items, x)
    requires forall x :: x != k ==> MapGet(m', x) == MapGet(m, x)
    ensures TreeOk(WriteLeaf(t, n, items), m')
  {
    var t' := WriteLeaf(t, n, items);
    forall id | id in t'.cells ensures CellOk(t', id) && Holds(t', id, m') {
      assert CellOk(t, id) && Holds(t, id, m);
      if t.cells[id].node.inner {
        WriteFrame(t, n, items, id);
      } else if id != n {
        assert PairApart(t.cells, id, n) && CellOk(t, n);
        Elsewhere(t.cells[id].node.items, t.cells[id].span, t.cells[n].span, m, k, m');
      } else {
        Here(t.cells[n].node.items, items, t.cells[n].span, m, k, m');
      }
    }
    forall a, b | a in t'.cells && b in t'.cells ensures PairApart(t'.cells, a, b) {
      assert PairApart(t.cells, a, b);
    }
  }

  lemma Elsewhere(items: seq<Entry>, s: Span, other: Span, m: map<Key, Value>, k: Key, m': map<Key, Value>)
    requires LeafAgrees(items, s, m) && SpansApart(s, other) && Covers(other, k)
    requires forall x :: x != k ==> MapGet(m', x) == MapGet(m, x)
    ensures LeafAgrees(items, s, m')
  {
    forall x | Covers(s, x) ensures LeafGet(items, x) == MapGet(m', x) {
      assert MapGet(m', x) == MapGet(m, x);
    }
  }

  lemma Here(was: seq<Entry>, items: seq<Entry>, s: Span, m: map<Key, Value>, k: Key, m': map<Key, Value>)
    requires LeafAgrees(was, s, m)
    requires forall x :: LeafGet(items, x) == if x == k then MapGet(m', k) else LeafGet(was, x)
    requires forall x :: x != k ==> MapGet(m', x) == MapGet(m, x)
    ensures LeafAgrees(items, s, m')
  {
    forall x | Covers(s, x) ensures LeafGet(items, x) == MapGet(m', x) {
      assert x != k ==> LeafGet(was, x) == MapGet(m, x);
    }
  }

  lemma WriteFrame(t: Tree, n: Id, items: seq<Entry>, id: Id)
    requires ShapeOk(t) && n in t.cells && id in t.cells && t.cells[id].node.inner
    ensures NodeOk(WriteLeaf(t, n, items).cells, t.cells[id])
  {
    assert CellOk(t, id);
    forall j {:trigger t.cells[id].node.items[j]} | 0 <= j < |t.cells[id].node.items|
      ensures Kept(t, WriteLeaf(t, n, items), t.cells[id].node.items[j].val) {
      assert KidOk(t.cells, t.cells[id], j);
    }
    BystanderOk(t, WriteLeaf(t, n, items), id);
  }
}
