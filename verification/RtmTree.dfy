/** The tree of btree-rtm as a map from node IDs to nodes, and the structural changes made on the way
    down: splits of full nodes and merges of small ones keep the tree and the map it stands for. */
module RtmTree {
  import opened Entries
  import opened RtmNode

  type Id = Value

  datatype Node = Node(inner: bool, level: nat, items: seq<Entry>)

  /** The keys from `lo` up to but not including `hi`. */
  datatype Span = Span(lo: Option<Key>, hi: Option<Key>)

  /** A node and, as an auxiliary, the keys it stands for. */
  datatype Cell = Cell(node: Node, span: Span)

  datatype Tree = Tree(cells: map<Id, Cell>, root: Id, unused: Id)

  predicate Covers(s: Span, k: Key) {
    (s.lo.None? || s.lo.value <= k) && (s.hi.None? || k < s.hi.value)
  }

  predicate Inside(s: Span, k: Key) {
    (s.lo.None? || s.lo.value < k) && (s.hi.None? || k < s.hi.value)
  }

  predicate Proper(s: Span) {
    s.lo.None? || s.hi.None? || s.lo.value < s.hi.value
  }

  predicate SpansApart(a: Span, b: Span) {
    || (a.hi.Some? && b.lo.Some? && a.hi.value <= b.lo.value)
    || (b.hi.Some? && a.lo.Some? && b.hi.value <= a.lo.value)
  }

  function KidSpan(s: Span, items: seq<Entry>, i: nat): Span
    requires i < |items|
  {
    Span(if i == 0 then s.lo else Some(items[i].key), if i + 1 < |items| then Some(items[i + 1].key) else s.hi)
  }

  /** Separators after the first lie in order inside the span; off the left edge the first one is the
      lower end of the span, on the left edge it may be anything. */
  ghost predicate SepsOk(items: seq<Entry>, s: Span) {
    && items != [] && Ordered(items, true)
    && (forall i :: 1 <= i < |items| ==> Inside(s, items[i].key))
    && (s.lo.Some? ==> items[0].key == s.lo.value)
  }

  ghost predicate KidOk(cells: map<Id, Cell>, c: Cell, i: nat)
    requires i < |c.node.items|
  {
    var id := c.node.items[i].val;
    id in cells && cells[id].span == KidSpan(c.span, c.node.items, i) && cells[id].node.level + 1 == c.node.level
  }

  ghost predicate KidsOk(cells: map<Id, Cell>, c: Cell) {
    forall i {:trigger KidOk(cells, c, i)} :: 0 <= i < |c.node.items| ==> KidOk(cells, c, i)
  }

  ghost predicate LeafOk(items: seq<Entry>, s: Span) {
    Sorted(KeysOf(items)) && forall i :: 0 <= i < |items| ==> Covers(s, items[i].key)
  }

  ghost predicate NodeOk(cells: map<Id, Cell>, c: Cell) {
    && |c.node.items| <= CAPACITY && Proper(c.span)
    && if c.node.inner then c.node.level > 0 && SepsOk(c.node.items, c.span) && KidsOk(cells, c)
       else c.node.level == 0 && LeafOk(c.node.items, c.span)
  }

  ghost predicate PairApart(cells: map<Id, Cell>, a: Id, b: Id)
    requires a in cells && b in cells
  {
    a != b && cells[a].node.level == cells[b].node.level ==> SpansApart(cells[a].span, cells[b].span)
  }

  ghost predicate LeafAgrees(items: seq<Entry>, s: Span, m: map<Key, Value>) {
    forall k {:trigger LeafGet(items, k)} :: Covers(s, k) ==> LeafGet(items, k) == MapGet(m, k)
  }

  ghost predicate CellOk(t: Tree, id: Id)
    requires id in t.cells && t.root in t.cells
  {
    NodeOk(t.cells, t.cells[id]) && id < t.unused && t.cells[id].node.level <= t.cells[t.root].node.level
  }

  ghost predicate ShapeOk(t: Tree) {
    && t.root in t.cells && t.cells[t.root].span == Span(None, None)
    && (forall id {:trigger CellOk(t, id)} :: id in t.cells ==> CellOk(t, id))
    && (forall a, b {:trigger PairApart(t.cells, a, b)} :: a in t.cells && b in t.cells ==> PairApart(t.cells, a, b))
  }

  ghost predicate Holds(t: Tree, id: Id, m: map<Key, Value>)
    requires id in t.cells
  {
    !t.cells[id].node.inner ==> LeafAgrees(t.cells[id].node.items, t.cells[id].span, m)
  }

  ghost predicate MapOk(t: Tree, m: map<Key, Value>) {
    forall id {:trigger Holds(t, id, m)} :: id in t.cells ==> Holds(t, id, m)
  }

  ghost predicate TreeOk(t: Tree, m: map<Key, Value>) {
    ShapeOk(t) && MapOk(t, m)
  }

  // ----- spans --------------------------------------------------------------------------------

  function Witness(s: Span): Key {
    if s.lo.Some? then s.lo.value else if s.hi.Some? then s.hi.value - 1 else 0
  }

  lemma WitnessCovered(s: Span)
    requires Proper(s)
    ensures Covers(s, Witness(s))
  {
  }

  lemma KidInside(items: seq<Entry>, s: Span, i: nat, k: Key)
    requires SepsOk(items, s) && i < |items| && Covers(KidSpan(s, items, i), k)
    ensures Covers(s, k)
  {
  }

  lemma KidUnique(items: seq<Entry>, s: Span, i: nat, j: nat, k: Key)
    requires SepsOk(items, s) && i < |items| && j < |items|
    requires Covers(KidSpan(s, items, i), k) && Covers(KidSpan(s, items, j), k)
    ensures i == j
  {
  }

  /** The kid just before the upper bound is the one whose span holds the key. */
  lemma UbKid(items: seq<Entry>, s: Span, k: Key, pos: nat)
    requires SepsOk(items, s) && Covers(s, k) && IsUb(items, k, pos)
    ensures Covers(KidSpan(s, items, pos - 1), k)
  {
  }

  /** Every node but the root has one parent at most. */
  lemma SoleParent(t: Tree, p: Id, q: Id, i: nat, j: nat)
    requires ShapeOk(t) && p in t.cells && q in t.cells && t.cells[p].node.inner && t.cells[q].node.inner
    requires i < |t.cells[p].node.items| && j < |t.cells[q].node.items|
    requires t.cells[p].node.items[i].val == t.cells[q].node.items[j].val
    ensures p == q && i == j
  {
    var cp, cq := t.cells[p], t.cells[q];
    assert CellOk(t, p) && CellOk(t, q) && KidOk(t.cells, cp, i) && KidOk(t.cells, cq, j);
    var kid := cp.node.items[i].val;
    assert CellOk(t, kid);
    var x := Witness(t.cells[kid].span);
    WitnessCovered(t.cells[kid].span);
    KidInside(cp.node.items, cp.span, i, x);
    KidInside(cq.node.items, cq.span, j, x);
    assert PairApart(t.cells, p, q);
    if p == q { KidUnique(cp.node.items, cp.span, i, j, x); }
  }

  /** The root is nobody's kid. */
  lemma RootAlone(t: Tree, p: Id, i: nat)
    requires ShapeOk(t) && p in t.cells && t.cells[p].node.inner && i < |t.cells[p].node.items|
    ensures t.cells[p].node.items[i].val != t.root
  {
    assert CellOk(t, p) && KidOk(t.cells, t.cells[p], i);
  }

  /** A node whose kids keep their spans and levels stays well formed. */
  lemma KidsStay(cells: map<Id, Cell>, cells': map<Id, Cell>, c: Cell)
    requires NodeOk(cells, c)
    requires c.node.inner ==> forall i :: 0 <= i < |c.node.items| ==>
               var id := c.node.items[i].val;
               && id in cells && id in cells'
               && cells'[id].span == cells[id].span && cells'[id].node.level == cells[id].node.level
    ensures NodeOk(cells', c)
  {
    if c.node.inner {
      forall i | 0 <= i < |c.node.items| ensures KidOk(cells', c, i) {
        assert KidOk(cells, c, i);
      }
    }
  }

  // ----- splitting ----------------------------------------------------------------------------

  function Mid(items: seq<Entry>): nat {
    |items| / 2
  }

  function LeftOf(c: Cell): Cell
    requires |c.node.items| >= 2
  {
    var mid := Mid(c.node.items);
    Cell(c.node.(items := c.node.items[..mid]), c.span.(hi := Some(c.node.items[mid].key)))
  }

  function RightOf(c: Cell): Cell
    requires |c.node.items| >= 2
  {
    var mid := Mid(c.node.items);
    Cell(c.node.(items := c.node.items[mid..]), c.span.(lo := Some(c.node.items[mid].key)))
  }

  function SepOf(c: Cell): Key
    requires |c.node.items| >= 2
  {
    c.node.items[Mid(c.node.items)].key
  }

  lemma SepInside(cells: map<Id, Cell>, c: Cell)
    requires NodeOk(cells, c) && |c.node.items| >= 2
    ensures Inside(c.span, SepOf(c))
  {
    if !c.node.inner {
      var keys := KeysOf(c.node.items);
      assert keys[0] < keys[Mid(c.node.items)];
    }
  }

  lemma HalvesOk(cells: map<Id, Cell>, c: Cell)
    requires NodeOk(cells, c) && |c.node.items| >= 2
    ensures NodeOk(cells, LeftOf(c)) && NodeOk(cells, RightOf(c))
  {
    SepInside(cells, c);
    if c.node.inner {
      InnerHalves(cells, c);
    } else {
      LeafHalves(c.node.items, c.span, Mid(c.node.items));
    }
  }

  lemma InnerHalves(cells: map<Id, Cell>, c: Cell)
    requires NodeOk(cells, c) && |c.node.items| >= 2 && c.node.inner
    ensures NodeOk(cells, LeftOf(c)) && NodeOk(cells, RightOf(c))
  {
    var mid, l, r := Mid(c.node.items), LeftOf(c), RightOf(c);
    forall i | 0 <= i < mid ensures KidOk(cells, l, i) {
      assert KidOk(cells, c, i);
    }
    forall i | 0 <= i < |r.node.items| ensures KidOk(cells, r, i) {
      assert KidOk(cells, c, mid + i);
    }
  }

  lemma LeafHalves(items: seq<Entry>, s: Span, mid: nat)
    requires LeafOk(items, s) && mid < |items|
    ensures LeafOk(items[..mid], s.(hi := Some(items[mid].key))) && LeafOk(items[mid..], s.(lo := Some(items[mid].key)))
  {
    var keys := KeysOf(items);
    assert KeysOf(items[..mid]) == keys[..mid] && KeysOf(items[mid..]) == keys[mid..];
    forall i | 0 <= i < mid ensures items[i].key < items[mid].key { assert keys[i] < keys[mid]; }
    forall i | mid <= i < |items| ensures items[mid].key <= items[i].key { assert keys[mid] <= keys[i]; }
  }

  lemma HalvesAgree(items: seq<Entry>, s: Span, m: map<Key, Value>, mid: nat)
    requires LeafOk(items, s) && LeafAgrees(items, s, m) && mid < |items| && Inside(s, items[mid].key)
    ensures LeafAgrees(items[..mid], s.(hi := Some(items[mid].key)), m)
    ensures LeafAgrees(items[mid..], s.(lo := Some(items[mid].key)), m)
  {
    LeafHalves(items, s, mid);
    var l, r := items[..mid], items[mid..];
    assert items == l + r;
    forall k ensures k < items[mid].key ==> LeafGet(l, k) == LeafGet(items, k)
      ensures items[mid].key <= k ==> LeafGet(r, k) == LeafGet(items, k) {
      JoinRuns(l, r, k);
      LeafGetIff(l, k);
      LeafGetIff(r, k);
    }
  }

  // ----- a split under a parent ---------------------------------------------------------------

  /** btnode_insert on the items of a node. */
  function LbOf(items: seq<Entry>, k: Key, from: nat): (pos: nat)
    requires from <= |items|
    ensures from <= pos <= |items|
    ensures (forall i :: from <= i < pos ==> items[i].key < k) && (pos < |items| ==> k <= items[pos].key)
    decreases |items| - from
  {
    if from == |items| || k <= items[from].key then from else LbOf(items, k, from + 1)
  }

  function First(items: seq<Entry>, inner: bool): nat {
    if inner && items != [] then 1 else 0
  }

  function Inserted(items: seq<Entry>, inner: bool, e: Entry): seq<Entry> {
    var pos := LbOf(items, e.key, First(items, inner));
    if pos < |items| && items[pos].key == e.key then items else Spliced(items, pos, e)
  }

  /** A separator inside the span of kid `i` goes right after it. */
  lemma SepPlace(items: seq<Entry>, s: Span, i: nat, sep: Key)
    requires SepsOk(items, s) && i < |items| && Inside(KidSpan(s, items, i), sep)
    ensures LbOf(items, sep, 1) == i + 1 && (i + 1 < |items| ==> items[i + 1].key != sep)
  {
  }

  lemma SplicedSeps(items: seq<Entry>, s: Span, i: nat, e: Entry)
    requires SepsOk(items, s) && i < |items| && Inside(KidSpan(s, items, i), e.key)
    ensures SepsOk(Spliced(items, i + 1, e), s)
  {
    var r := Spliced(items, i + 1, e);
    forall a, b | 1 <= a < b < |r| ensures r[a].key < r[b].key {
      assert a != i + 1 ==> r[a] == items[if a <= i then a else a - 1];
      assert b != i + 1 ==> r[b] == items[if b <= i then b else b - 1];
    }
    forall a | 1 <= a < |r| ensures Inside(s, r[a].key) {
      assert a != i + 1 ==> r[a] == items[if a <= i then a else a - 1];
    }
  }

  lemma SplicedSpan(items: seq<Entry>, s: Span, i: nat, e: Entry, j: nat)
    requires items != [] && i < |items| && j <= |items|
    ensures var r := Spliced(items, i + 1, e);
            && (j < i ==> KidSpan(s, r, j) == KidSpan(s, items, j) && r[j] == items[j])
            && (j == i ==> KidSpan(s, r, j) == KidSpan(s, items, i).(hi := Some(e.key)) && r[j] == items[j])
            && (j == i + 1 ==> KidSpan(s, r, j) == KidSpan(s, items, i).(lo := Some(e.key)) && r[j] == e)
            && (j > i + 1 ==> KidSpan(s, r, j) == KidSpan(s, items, j - 1) && r[j] == items[j - 1])
  {
  }
}
