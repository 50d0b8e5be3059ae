/** Obstruction freedom: a call that runs alone finishes. Each eager split makes the path of the key
    emptier even when it makes the parent full, so only so many restarts are possible. */
module OlcSolo {
  import opened Entries
  import opened OlcNode
  import opened OlcProtocol
  import opened OlcSpec
  import opened OlcInvariant
  import opened OlcTree
  import opened OlcSteps
  import opened OlcTheorems

  // How close a node is to its capacity: 2 when full, 1 when one short of it.
  function Load(node: Node): nat {
    match node
    case Leaf(data) => if |data| > LEAF_MAX - 2 then |data| - (LEAF_MAX - 2) else 0
    case Inner(keys, _) => if |keys| > INNER_FULL - 2 then |keys| - (INNER_FULL - 2) else 0
  }

  /** The loads along the descent for k from n, through at most h inner nodes. */
  function PathLoad(cells: map<NodeId, Cell>, n: NodeId, k: Key, h: nat): nat
    decreases h
  {
    if n !in cells then 0 else
    Load(cells[n].node) +
    match cells[n].node
    case Leaf(_) => 0
    case Inner(keys, children) =>
      var i := LowerBound(keys, k);
      if h == 0 || i >= |children| then 0 else PathLoad(cells, children[i], k, h - 1)
  }

  function RootLoad(s: State, k: Key): nat
    requires s.root in s.cells
  {
    PathLoad(s.cells, s.root, k, s.cells[s.root].span.level)
  }

  // ---------------------------------------------------------------- splits lighten the path

  lemma PathStep(cells: map<NodeId, Cell>, n: NodeId, k: Key, child: NodeId, h: nat)
    requires n in cells && IsChild(cells[n].node, k, child) && h > 0
    ensures PathLoad(cells, n, k, h) == Load(cells[n].node) + PathLoad(cells, child, k, h - 1)
  {
  }

  lemma LeafPath(cells: map<NodeId, Cell>, n: NodeId, k: Key, h: nat)
    requires n in cells && cells[n].node.Leaf?
    ensures PathLoad(cells, n, k, h) == Load(cells[n].node)
  {
  }

  /** Below the split nothing changes. */
  lemma {:induction false} PathBelow(s: State, m: map<Key, Value>, s': State, y: NodeId, k: Key, top: nat)
    requires TreeOk(s, m) && y in s.cells && Covers(s.cells[y].span, k) && s.cells[y].span.level < top
    requires forall b :: b in s.cells && s.cells[b].span.level < top ==> b in s'.cells && s'.cells[b] == s.cells[b]
    ensures PathLoad(s'.cells, y, k, s.cells[y].span.level) == PathLoad(s.cells, y, k, s.cells[y].span.level)
    decreases s.cells[y].span.level
  {
    assert CellOk(s.cells, y);
    if s.cells[y].node.Inner? {
      var child := s.cells[y].node.children[LowerBound(s.cells[y].node.keys, k)];
      Descend(s, m, y, k, child);
      PathBelow(s, m, s', child, k, top);
    }
  }

  // The half of a split node that a key belongs to leads on to the same child.
  lemma HalfChild(keys: seq<Key>, children: seq<NodeId>, k: Key)
    requires Sorted(keys) && |keys| >= 4 && |children| == |keys| + 1
    ensures var node := Inner(keys, children); var child := children[LowerBound(keys, k)];
            if k <= Separator(node) then IsChild(LeftPart(node), k, child) else IsChild(RightPart(node), k, child)
  {
    var cut := InnerCut(keys);
    if k <= keys[cut] {
      LowerBoundPart(keys, k, cut);
    } else {
      LowerBoundPart(keys, k, cut + 1);
    }
  }

  /** Both halves of a full node are far from full. */
  lemma HalfLoad(s: State, m: map<Key, Value>, s': State, n: NodeId, right: NodeId, k: Key)
    requires TreeOk(s, m) && n in s.cells && s.cells[n].node.Full() && Covers(s.cells[n].span, k)
    requires Splittable(s.cells[n].node) && Halved(s, s', n, right)
    requires forall b :: b in s.cells && s.cells[b].span.level < s.cells[n].span.level ==>
               b in s'.cells && s'.cells[b] == s.cells[b]
    ensures var h := s.cells[n].span.level;
            var half := if k <= Separator(s.cells[n].node) then n else right;
            PathLoad(s'.cells, half, k, h) + 2 == PathLoad(s.cells, n, k, h)
  {
    var cell := s.cells[n];
    var half := if k <= Separator(cell.node) then n else right;
    FullShape(s, m, n);
    PartLoad(cell.node);
    if cell.node.Leaf? {
      LeafPath(s.cells, n, k, cell.span.level);
      LeafPath(s'.cells, half, k, cell.span.level);
    } else {
      InnerHalfLoad(s, m, s', n, half, k);
    }
  }

  lemma InnerHalfLoad(s: State, m: map<Key, Value>, s': State, n: NodeId, half: NodeId, k: Key)
    requires TreeOk(s, m) && n in s.cells && Covers(s.cells[n].span, k) && s.cells[n].span.level > 0
    requires s.cells[n].node.Inner?
    requires var node := s.cells[n].node; Sorted(node.keys) && |node.keys| >= 4 && |node.children| == |node.keys| + 1
    requires half in s'.cells
    requires s'.cells[half].node ==
        if k <= Separator(s.cells[n].node) then LeftPart(s.cells[n].node) else RightPart(s.cells[n].node)
    requires forall b :: b in s.cells && s.cells[b].span.level < s.cells[n].span.level ==>
               b in s'.cells && s'.cells[b] == s.cells[b]
    ensures var h := s.cells[n].span.level;
            PathLoad(s'.cells, half, k, h) + Load(s.cells[n].node) ==
                PathLoad(s.cells, n, k, h) + Load(s'.cells[half].node)
  {
    var cell := s.cells[n];
    var child := cell.node.children[LowerBound(cell.node.keys, k)];
    Descend(s, m, n, k, child);
    PathBelow(s, m, s', child, k, cell.span.level);
    HalfPath(s.cells, s'.cells, n, half, k, child, cell.span.level);
  }

  lemma HalfPath(cells: map<NodeId, Cell>, cells': map<NodeId, Cell>, n: NodeId, half: NodeId, k: Key, child: NodeId,
      h: nat)
    requires n in cells && half in cells' && h > 0 && IsChild(cells[n].node, k, child)
    requires Sorted(cells[n].node.keys) && |cells[n].node.keys| >= 4
    requires |cells[n].node.children| == |cells[n].node.keys| + 1
    requires cells'[half].node ==
        if k <= Separator(cells[n].node) then LeftPart(cells[n].node) else RightPart(cells[n].node)
    requires PathLoad(cells', child, k, h - 1) == PathLoad(cells, child, k, h - 1)
    ensures PathLoad(cells', half, k, h) + Load(cells[n].node) == PathLoad(cells, n, k, h) + Load(cells'[half].node)
  {
    HalfChild(cells[n].node.keys, cells[n].node.children, k);
    PathStep(cells, n, k, child, h);
    PathStep(cells', half, k, child, h);
  }

  lemma FullShape(s: State, m: map<Key, Value>, n: NodeId)
    requires TreeOk(s, m) && n in s.cells && s.cells[n].node.Full()
    ensures var cell := s.cells[n];
            && (cell.node.Leaf? ==> |cell.node.data| == LEAF_MAX)
            && (cell.node.Inner? ==>
                  && Sorted(cell.node.keys) && |cell.node.keys| == INNER_FULL
                  && |cell.node.children| == |cell.node.keys| + 1 && cell.span.level > 0)
  {
    assert CellOk(s.cells, n);
  }

  lemma PartLoad(node: Node)
    requires node.Full() && Splittable(node) && (node.Leaf? ==> |node.data| == LEAF_MAX)
    requires node.Inner? ==> |node.keys| == INNER_FULL && |node.children| == |node.keys| + 1
    ensures Load(node) == 2 && Load(LeftPart(node)) == 0 && Load(RightPart(node)) == 0
  {
  }

  // The parent leads to the half the key belongs to.
  lemma SpliceChild(keys: seq<Key>, children: seq<NodeId>, span: Span, i: nat, sep: Key, right: NodeId, k: Key)
    requires Sorted(keys) && |children| == |keys| + 1 && i < |children| && span.level > 0
    requires Covers(ChildSpan(span, keys, i), sep) && ChildSpan(span, keys, i).hi != Some(sep)
    requires Covers(ChildSpan(span, keys, i), k)
    ensures IsChild(Inner(InsertKey(keys, sep), InsertChild(keys, children, sep, right)), k,
                    if k <= sep then children[i] else right)
  {
    ChildUnique(span, keys, i, sep);
    ChildUnique(span, keys, i, k);
    SpliceBound(keys, i, sep, k);
  }

  lemma SpliceBound(keys: seq<Key>, i: nat, sep: Key, k: Key)
    requires Sorted(keys) && i <= |keys| && i == LowerBound(keys, sep) && i == LowerBound(keys, k)
    requires i < |keys| ==> sep < keys[i]
    ensures LowerBound(InsertKey(keys, sep), k) == if k <= sep then i else i + 1
  {
    assert sep !in keys;
    InsertKeySorted(keys, sep);
    LowerBoundUnique(InsertKey(keys, sep), k, if k <= sep then i else i + 1);
  }

  lemma ParentLoad(s: State, m: map<Key, Value>, s': State, p: NodeId, n: NodeId, right: NodeId, k: Key)
    requires TreeOk(s, m) && n in s.cells && s.cells[n].node.Full() && p in s.cells
    requires Covers(s.cells[p].span, k) && IsChild(s.cells[p].node, k, n) && !s.cells[p].node.Full()
    requires |s.cells[p].node.children| == |s.cells[p].node.keys| + 1
    requires Splittable(s.cells[n].node) && SplitAt(s, s', p, n, right)
    ensures PathLoad(s'.cells, p, k, s.cells[p].span.level) < PathLoad(s.cells, p, k, s.cells[p].span.level)
  {
    assert CellOk(s.cells, p);
    Descend(s, m, p, k, n);
    SeparatorInside(s.cells, n);
    var cp, sep := s.cells[p], Separator(s.cells[n].node);
    var i := LowerBound(cp.node.keys, k);
    var half := if k <= sep then n else right;
    HalfLoad(s, m, s', n, right, k);
    SpliceChild(cp.node.keys, cp.node.children, cp.span, i, sep, right, k);
    PathStep(s.cells, p, k, n, cp.span.level);
    PathStep(s'.cells, p, k, half, cp.span.level);
  }

  /** Another node that covers the key and is not lower lies above. */
  lemma AboveOnly(s: State, m: map<Key, Value>, p: NodeId, x: NodeId, k: Key)
    requires TreeOk(s, m) && p in s.cells && x in s.cells && x != p && s.cells[p].node.Inner?
    requires Covers(s.cells[p].span, k) && Covers(s.cells[x].span, k) && s.cells[x].span.level >= s.cells[p].span.level
    ensures s.cells[x].span.level > s.cells[p].span.level && s.cells[x].node.Inner?
    ensures |s.cells[x].node.children| == |s.cells[x].node.keys| + 1
  {
    assert CellOk(s.cells, p) && CellOk(s.cells, x);
    if s.cells[x].span.level == s.cells[p].span.level {
      ApartSpans(s.cells[x].span, s.cells[p].span, k);
    }
  }

  lemma Untouched(s: State, m: map<Key, Value>, s': State, p: NodeId, n: NodeId, right: NodeId, k: Key, x: NodeId)
    requires TreeOk(s, m) && n in s.cells && p in s.cells && Splittable(s.cells[n].node)
    requires Covers(s.cells[p].span, k) && IsChild(s.cells[p].node, k, n)
    requires |s.cells[p].node.children| == |s.cells[p].node.keys| + 1 && SplitAt(s, s', p, n, right)
    requires x in s.cells && s.cells[x].span.level > s.cells[p].span.level
    ensures x in s'.cells && s'.cells[x] == s.cells[x]
  {
    Descend(s, m, p, k, n);
  }

  /** A split under a parent makes the whole path lighter. */
  lemma {:induction false} PathAbove(s: State, m: map<Key, Value>, s': State, p: NodeId, n: NodeId, right: NodeId,
                                     k: Key, x: NodeId)
    requires TreeOk(s, m) && n in s.cells && s.cells[n].node.Full() && p in s.cells
    requires Covers(s.cells[p].span, k) && IsChild(s.cells[p].node, k, n) && !s.cells[p].node.Full()
    requires |s.cells[p].node.children| == |s.cells[p].node.keys| + 1
    requires Splittable(s.cells[n].node) && SplitAt(s, s', p, n, right)
    requires x in s.cells && Covers(s.cells[x].span, k) && s.cells[x].span.level >= s.cells[p].span.level
    ensures PathLoad(s'.cells, x, k, s.cells[x].span.level) < PathLoad(s.cells, x, k, s.cells[x].span.level)
    decreases s.cells[x].span.level
  {
    if x == p {
      ParentLoad(s, m, s', p, n, right, k);
    } else {
      AboveOnly(s, m, p, x, k);
      Untouched(s, m, s', p, n, right, k, x);
      var h := s.cells[x].span.level;
      var child := s.cells[x].node.children[LowerBound(s.cells[x].node.keys, k)];
      Descend(s, m, x, k, child);
      PathAbove(s, m, s', p, n, right, k, child);
      PathOn(s.cells, s'.cells, x, k, child, h);
    }
  }

  lemma PathOn(cells: map<NodeId, Cell>, cells': map<NodeId, Cell>, x: NodeId, k: Key, child: NodeId, h: nat)
    requires x in cells && x in cells' && cells'[x] == cells[x] && IsChild(cells[x].node, k, child) && h > 0
    requires PathLoad(cells', child, k, h - 1) < PathLoad(cells, child, k, h - 1)
    ensures PathLoad(cells', x, k, h) < PathLoad(cells, x, k, h)
  {
    PathStep(cells, x, k, child, h);
    PathStep(cells', x, k, child, h);
  }

  lemma RootPath(cells: map<NodeId, Cell>, top: NodeId, sep: Key, left: NodeId, right: NodeId, k: Key, h: nat)
    requires top in cells && cells[top].node == Inner([sep], [left, right])
    ensures PathLoad(cells, top, k, h + 1) == PathLoad(cells, if k <= sep then left else right, k, h)
  {
    LowerBoundUnique([sep], k, if k <= sep then 0 else 1);
  }

  /** A split of the root makes the path lighter by more than the level it adds. */
  lemma TopLoad(s: State, m: map<Key, Value>, s': State, n: NodeId, right: NodeId, top: NodeId, k: Key)
    requires TreeOk(s, m) && n == s.root && s.cells[n].node.Full()
    requires Splittable(s.cells[n].node) && GrownAt(s, s', n, right, top)
    ensures RootLoad(s', k) + 2 == RootLoad(s, k)
  {
    RootPath(s'.cells, top, Separator(s.cells[n].node), n, right, k, s.cells[n].span.level);
    HalfLoad(s, m, s', n, right, k);
  }

  /** Without a split the path weighs the same. */
  lemma {:induction false} PathSame(cells: map<NodeId, Cell>, cells': map<NodeId, Cell>, n: NodeId, k: Key, h: nat)
    requires cells'.Keys == cells.Keys && forall b :: b in cells ==> cells'[b].node == cells[b].node
    ensures PathLoad(cells', n, k, h) == PathLoad(cells, n, k, h)
    decreases h
  {
    if n in cells && cells[n].node.Inner? && h > 0 {
      var i := LowerBound(cells[n].node.keys, k);
      if i < |cells[n].node.children| {
        PathSame(cells, cells', cells[n].node.children[i], k, h - 1);
      }
    }
  }

  // ---------------------------------------------------------------- running alone

  // No other call holds a lock.
  ghost predicate Alone(s: State, c: CallId) {
    c in s.calls && forall d, n :: d in s.calls && d != c ==> !Holds(s.calls[d].pc, n)
  }

  // Every version the call holds is still the current one.
  predicate UpToDate(s: State, pc: Pc) {
    match pc
    case RootLoaded(n) => n == s.root
    case RootRead(r) => r.id == s.root && IsNow(s, r)
    case AtNode(parent, r) => IsNow(s, r) && if parent.Some? then IsNow(s, parent.value) else r.id == s.root
    case CheckParent(p, r) => IsNow(s, p) && IsNow(s, r)
    case ReadChild(r) => IsNow(s, r)
    case CheckInner(r, _) => IsNow(s, r)
    case LockChild(r, _) => IsNow(s, r)
    case LeafLock(parent, r) => IsNow(s, r) && (parent.Some? ==> IsNow(s, parent.value))
    case LeafRecheck(p, _) => IsNow(s, p)
    case SplitParent(p, r) => IsNow(s, p) && IsNow(s, r)
    case SplitNode(held, r) => IsNow(s, r) && (held.None? ==> r.id == s.root)
    case SplitRoot(n) => n == s.root
    case ReadCheckParent(p, r, _) => IsNow(s, p) && IsNow(s, r)
    case ReadCheckNode(r, _) => IsNow(s, r)
    case SplitUnlock(_, _) => false
    case Release(_) => false
    case _ => true
  }

  predicate IsNow(s: State, r: Ref) {
    r.id in s.cells && Current(s, r)
  }

  predicate Committing(pc: Pc) {
    pc.LeafUnlock? || pc.Return? || pc.Done?
  }

  // How many more times the call can go back to the start.
  ghost function Restarts(s: State, call: Call): nat
    requires s.root in s.cells
  {
    if Committing(call.pc) then 0 else RootLoad(s, call.op.k) + (if UpToDate(s, call.pc) then 0 else 1)
  }

  function Level(s: State, n: NodeId): nat {
    if n in s.cells then s.cells[n].span.level else 0
  }

  // How many steps at most until the call next goes back to the start or returns.
  function Distance(s: State, pc: Pc): nat {
    match pc
    case Start => 6 * Level(s, s.root) + 23
    case RootLoaded(_) => 6 * Level(s, s.root) + 22
    case RootRead(_) => 6 * Level(s, s.root) + 21
    case AtNode(_, r) => 6 * Level(s, r.id) + 20
    case CheckParent(_, r) => 6 * Level(s, r.id) + 18
    case ReadChild(r) => 6 * Level(s, r.id) + 17
    case CheckInner(r, _) => 6 * Level(s, r.id) + 16
    case LockChild(_, child) => 6 * Level(s, child) + 21
    case SplitParent(_, _) => 14
    case SplitNode(_, _) => 13
    case SplitRoot(_) => 12
    case SplitDo(_, _) => 11
    case ReadCheckParent(_, _, _) => 14
    case ReadCheckNode(_, _) => 13
    case LeafLock(_, _) => 10
    case LeafRecheck(_, _) => 9
    case LeafWrite(_) => 8
    case LeafUnlock(_) => 7
    case Return(_) => 6
    case SplitUnlock(_, _) => 4
    case Release(_) => 3
    case Done(_) => 0
  }

  ghost function Pass(s: State, k: Key): nat
    requires s.root in s.cells
  {
    6 * (Level(s, s.root) + RootLoad(s, k)) + 24
  }

  /** A bound on the steps a call needs when it runs alone. */
  ghost function Rank(s: State, call: Call): nat
    requires s.root in s.cells
  {
    Times(Restarts(s, call), Pass(s, call.op.k)) + Distance(s, call.pc)
  }

  function Times(a: nat, b: nat): nat {
    a * b
  }

  // One step nearer the end, or one restart fewer.
  ghost predicate Nearer(s: State, s': State, c: CallId)
    requires c in s.calls && c in s'.calls && s.root in s.cells && s'.root in s'.cells
  {
    var call, call' := s.calls[c], s'.calls[c];
    && call'.op == call.op
    && (|| Committing(call'.pc)
        || Level(s', s'.root) + RootLoad(s', call.op.k) <= Level(s, s.root) + RootLoad(s, call.op.k))
    && (Restarts(s', call') < Restarts(s, call)
        || (Restarts(s', call') == Restarts(s, call) && Distance(s', call'.pc) < Distance(s, call.pc)))
  }

  lemma NearerRank(s: State, m: map<Key, Value>, s': State, m': map<Key, Value>, c: CallId)
    requires TreeOk(s, m) && TreeOk(s', m') && c in s.calls && c in s'.calls
    requires Nearer(s, s', c)
    ensures Rank(s', s'.calls[c]) < Rank(s, s.calls[c])
  {
    var call, call' := s.calls[c], s'.calls[c];
    DistanceBound(s, m, call);
    DistanceBound(s', m', call');
    var p := Pass(s, call.op.k);
    Lexicographic(Restarts(s, call), p, Distance(s, call.pc), Restarts(s', call'),
                  if Committing(call'.pc) then p else Pass(s', call.op.k), Distance(s', call'.pc));
  }

  lemma Lexicographic(r: nat, p: nat, d: nat, r': nat, p': nat, d': nat)
    requires p' <= p && d' < p && (r' < r || (r' == r && d' < d))
    ensures Times(r', p') + d' < Times(r, p) + d
  {
    TimesMonotone(p', p, r');
    if r' < r {
      TimesMonotone(r' + 1, r, p);
    }
  }

  lemma TimesMonotone(a: nat, b: nat, c: nat)
    requires a <= b
    ensures a * c <= b * c && c * a <= c * b
  {
    assert b * c == a * c + (b - a) * c;
  }

  lemma DistanceBound(s: State, m: map<Key, Value>, call: Call)
    requires TreeOk(s, m)
    ensures Distance(s, call.pc) < Pass(s, call.op.k)
    ensures Committing(call.pc) ==> Distance(s, call.pc) <= 7 && Restarts(s, call) == 0
  {
  }

  lemma NothingLocked(s: State, c: CallId, n: NodeId)
    requires CallsOk(s) && Alone(s, c) && n in s.cells && !Holds(s.calls[c].pc, n)
    ensures !Locked(s.cells[n].word)
  {
    assert !exists d :: d in s.calls && Holds(s.calls[d].pc, n);
  }

  // What one step of c needs to know about the tree and the locks.
  ghost predicate Ready(s: State, call: Call) {
    && s.root in s.cells
    && (call.pc.RootLoaded? && call.pc.node in s.cells ==>
          var w := s.cells[call.pc.node].word; !Locked(w) && !Obsolete(w))
    && (call.pc.LockChild? && call.pc.child in s.cells ==>
          var w := s.cells[call.pc.child].word; !Locked(w) && !Obsolete(w))
    && (call.pc.CheckInner? && IsNow(s, call.pc.r) ==> Level(s, call.pc.child) + 1 == Level(s, call.pc.r.id))
    && (call.pc.AtNode? && call.pc.r.id in s.cells && s.cells[call.pc.r.id].node.Leaf? ==> Level(s, call.pc.r.id) == 0)
  }

  lemma IsReady(s: State, c: CallId)
    requires Inv(s) && Alone(s, c)
    ensures Ready(s, s.calls[c])
  {
    var call := s.calls[c];
    assert CallOk(s, call);
    match call.pc
    case RootLoaded(n) => assert CellOk(s.cells, n); NothingLocked(s, c, n);
    case LockChild(_, child) => assert CellOk(s.cells, child); NothingLocked(s, c, child);
    case CheckInner(r, child) => if Current(s, r) { Descend(s, Replay(s.trace), r.id, call.op.k, child); }
    case AtNode(_, r) => assert CellOk(s.cells, r.id);
    case _ =>
  }

  lemma EnterNearer(s: State, c: CallId, o: Obs)
    requires Enabled(s, c, o) && CallOk(s, s.calls[c]) && Ready(s, s.calls[c]) && Enters(s.calls[c].pc)
    ensures c in After(s, c, o).calls && Nearer(s, After(s, c, o), c)
  {
  }

  lemma CheckNearer(s: State, c: CallId, o: Obs)
    requires Enabled(s, c, o) && Ready(s, s.calls[c]) && Validates(s.calls[c].pc)
    ensures c in After(s, c, o).calls && Nearer(s, After(s, c, o), c)
  {
  }

  lemma ReadNearer(s: State, c: CallId, o: Obs)
    requires Enabled(s, c, o) && Ready(s, s.calls[c])
    requires var pc := s.calls[c].pc;
             pc.ReadChild? || pc.LockChild? || pc.SplitRoot? || pc.ReadCheckNode? || pc.Return?
    ensures c in After(s, c, o).calls && Nearer(s, After(s, c, o), c)
  {
  }

  // The node of an upgrade is not the parent it was reached from.
  ghost predicate NotItsParent(s: State, pc: Pc) {
    match pc
    case LeafLock(parent, r) => parent.Some? && IsNow(s, parent.value) ==> parent.value.id != r.id
    case SplitParent(p, r) => IsNow(s, p) ==> p.id != r.id
    case _ => true
  }

  lemma SameWeight(s: State, s': State, k: Key)
    requires s.root in s.cells && s'.root == s.root && s'.cells.Keys == s.cells.Keys
    requires forall b :: b in s.cells ==> s'.cells[b].node == s.cells[b].node && s'.cells[b].span == s.cells[b].span
    ensures RootLoad(s', k) == RootLoad(s, k)
    ensures forall n :: Level(s', n) == Level(s, n)
  {
    PathSame(s.cells, s'.cells, s.root, k, s.cells[s.root].span.level);
  }

  lemma UpgradeFails(s: State, c: CallId, o: Obs)
    requires Enabled(s, c, o) && s.root in s.cells && Upgrades(s.calls[c].pc)
    requires !Current(s, Target(s.calls[c].pc))
    ensures c in After(s, c, o).calls && Nearer(s, After(s, c, o), c)
  {
  }

  lemma UpgradeNearer(s: State, c: CallId, o: Obs)
    requires Enabled(s, c, o) && s.root in s.cells
    requires Upgrades(s.calls[c].pc) && NotItsParent(s, s.calls[c].pc)
    requires Current(s, Target(s.calls[c].pc))
    ensures c in After(s, c, o).calls && After(s, c, o).root in After(s, c, o).cells
    ensures Nearer(s, After(s, c, o), c)
  {
    var s', pc := After(s, c, o), s.calls[c].pc;
    SameWeight(s, s', s.calls[c].op.k);
    assert UpToDate(s, pc) ==> UpToDate(s', s'.calls[c].pc);
  }

  lemma NotParent(s: State, m: map<Key, Value>, call: Call)
    requires TreeOk(s, m) && CallOk(s, call)
    ensures NotItsParent(s, call.pc)
  {
    match call.pc
    case LeafLock(parent, r) =>
      if parent.Some? && IsNow(s, parent.value) { Descend(s, m, parent.value.id, call.op.k, r.id); }
    case SplitParent(p, r) => if IsNow(s, p) { Descend(s, m, p.id, call.op.k, r.id); }
    case _ =>
  }

  lemma UnlockNearer(s: State, c: CallId, o: Obs)
    requires Enabled(s, c, o) && s.root in s.cells
    requires var pc := s.calls[c].pc; pc.LeafUnlock? || pc.SplitUnlock? || pc.Release?
    ensures c in After(s, c, o).calls && After(s, c, o).root in After(s, c, o).cells
    ensures Nearer(s, After(s, c, o), c)
  {
    SameWeight(s, After(s, c, o), s.calls[c].op.k);
  }

  /** A split lowers the load of the path by at least one, and by two if it adds a level. */
  ghost predicate Lighter(s: State, s': State, k: Key)
    requires s.root in s.cells
  {
    && s'.root in s'.cells
    && RootLoad(s', k) < RootLoad(s, k)
    && Level(s', s'.root) + RootLoad(s', k) <= Level(s, s.root) + RootLoad(s, k)
  }

  lemma SplitLightens(s: State, m: map<Key, Value>, c: CallId, o: Obs)
    requires TreeOk(s, m) && Enabled(s, c, o) && CallOk(s, s.calls[c]) && s.calls[c].pc.SplitDo?
    ensures Lighter(s, After(s, c, o), s.calls[c].op.k)
  {
    if s.calls[c].pc.held.Some? {
      UnderLightens(s, m, c, o);
    } else {
      TopLoad(s, m, After(s, c, o), s.calls[c].pc.node, o.right, o.top, s.calls[c].op.k);
    }
  }

  lemma UnderLightens(s: State, m: map<Key, Value>, c: CallId, o: Obs)
    requires TreeOk(s, m) && Enabled(s, c, o) && CallOk(s, s.calls[c]) && s.calls[c].pc.SplitDo?
    requires s.calls[c].pc.held.Some?
    ensures Lighter(s, After(s, c, o), s.calls[c].op.k)
  {
    var call := s.calls[c];
    Descend(s, m, call.pc.held.value, call.op.k, call.pc.node);
    PathAbove(s, m, After(s, c, o), call.pc.held.value, call.pc.node, o.right, call.op.k, s.root);
  }

  lemma SplitNearer(s: State, c: CallId, o: Obs)
    requires Enabled(s, c, o) && s.calls[c].pc.SplitDo? && s.root in s.cells
    requires var s', k := After(s, c, o), s.calls[c].op.k;
             && s'.root in s'.cells
             && RootLoad(s', k) < RootLoad(s, k)
             && Level(s', s'.root) + RootLoad(s', k) <= Level(s, s.root) + RootLoad(s, k)
    ensures c in After(s, c, o).calls && Nearer(s, After(s, c, o), c)
  {
  }

  lemma WriteNearer(s: State, c: CallId, o: Obs)
    requires Enabled(s, c, o) && s.calls[c].pc.LeafWrite? && s.root in s.cells
    ensures c in After(s, c, o).calls && After(s, c, o).root in After(s, c, o).cells
    ensures Nearer(s, After(s, c, o), c)
  {
  }

  lemma StepNearer(s: State, m: map<Key, Value>, c: CallId, o: Obs)
    requires TreeOk(s, m) && Enabled(s, c, o) && CallOk(s, s.calls[c]) && Ready(s, s.calls[c])
    ensures c in After(s, c, o).calls && After(s, c, o).root in After(s, c, o).cells
    ensures Nearer(s, After(s, c, o), c)
  {
    var pc := s.calls[c].pc;
    if Enters(pc) {
      EnterNearer(s, c, o);
    } else if Upgrades(pc) {
      NotParent(s, m, s.calls[c]);
      if Current(s, Target(pc)) { UpgradeNearer(s, c, o); } else { UpgradeFails(s, c, o); }
    } else if pc.LeafUnlock? || pc.SplitUnlock? || pc.Release? {
      UnlockNearer(s, c, o);
    } else if pc.SplitDo? {
      SplitLightens(s, m, c, o);
      SplitNearer(s, c, o);
    } else if pc.LeafWrite? {
      WriteNearer(s, c, o);
    } else if Validates(pc) {
      CheckNearer(s, c, o);
    } else {
      ReadNearer(s, c, o);
    }
  }

  lemma StaysAlone(s: State, c: CallId, o: Obs)
    requires Alone(s, c) && Enabled(s, c, o)
    ensures Alone(After(s, c, o), c)
  {
  }

  lemma SoloRank(s: State, c: CallId, o: Obs, m: map<Key, Value>, m': map<Key, Value>)
    requires TreeOk(s, m) && Enabled(s, c, o) && CallOk(s, s.calls[c]) && Ready(s, s.calls[c])
    requires TreeOk(After(s, c, o), m')
    ensures c in After(s, c, o).calls
    ensures Rank(After(s, c, o), After(s, c, o).calls[c]) < Rank(s, s.calls[c])
  {
    StepNearer(s, m, c, o);
    NearerRank(s, m, After(s, c, o), m', c);
  }

  /** Every step a call takes while no other call holds a lock brings it nearer to its end. */
  lemma SoloStep(s: State, c: CallId, o: Obs)
    requires Inv(s) && Alone(s, c) && Enabled(s, c, o)
    ensures Inv(After(s, c, o)) && Alone(After(s, c, o), c)
    ensures Rank(After(s, c, o), After(s, c, o).calls[c]) < Rank(s, s.calls[c])
  {
    IsReady(s, c);
    StepKeepsInv(s, c, o);
    StaysAlone(s, c, o);
    SoloRank(s, c, o, Replay(s.trace), Replay(After(s, c, o).trace));
  }

  // ---------------------------------------------------------------- whole solo runs

  ghost predicate SoloRun(states: seq<State>, c: CallId, seen: seq<Obs>) {
    && |states| == |seen| + 1
    && forall i :: 0 <= i < |seen| ==> Enabled(states[i], c, seen[i]) && states[i + 1] == After(states[i], c, seen[i])
  }

  lemma SoloTail(states: seq<State>, c: CallId, seen: seq<Obs>)
    requires SoloRun(states, c, seen) && seen != []
    ensures Enabled(states[0], c, seen[0]) && states[1] == After(states[0], c, seen[0])
    ensures SoloRun(states[1..], c, seen[1..])
  {
  }

  /** From any state with the invariant in which no other call holds a lock, a run of one call alone
      is at most Rank steps long, whatever it observes. */
  lemma {:induction false} SoloBounded(states: seq<State>, c: CallId, seen: seq<Obs>)
    requires SoloRun(states, c, seen) && Inv(states[0]) && Alone(states[0], c)
    ensures |seen| <= Rank(states[0], states[0].calls[c])
    decreases |seen|
  {
    if seen != [] {
      SoloTail(states, c, seen);
      SoloStep(states[0], c, seen[0]);
      SoloBounded(states[1..], c, seen[1..]);
    }
  }

  /** And it can always be driven to its end. */
  lemma {:induction false} SoloFinishes(s: State, c: CallId) returns (states: seq<State>, seen: seq<Obs>)
    requires Inv(s) && Alone(s, c)
    ensures SoloRun(states, c, seen) && states[0] == s
    ensures c in states[|seen|].calls && states[|seen|].calls[c].pc.Done?
    decreases Rank(s, s.calls[c])
  {
    if s.calls[c].pc.Done? {
      return [s], [];
    }
    assert CallOk(s, s.calls[c]);
    Safe(s, Replay(s.trace), s.calls[c]);
    var o := Honest(s, s.calls[c]);
    HonestEnabled(s, c);
    SoloStep(s, c, o);
    var rest, more := SoloFinishes(After(s, c, o), c);
    states, seen := [s] + rest, [o] + more;
    SoloPrepend(s, c, o, rest, more);
  }

  lemma SoloPrepend(s: State, c: CallId, o: Obs, rest: seq<State>, more: seq<Obs>)
    requires Enabled(s, c, o) && SoloRun(rest, c, more) && rest[0] == After(s, c, o)
    ensures SoloRun([s] + rest, c, [o] + more)
    ensures ([s] + rest)[|more| + 1] == rest[|more|]
  {
    var states, seen := [s] + rest, [o] + more;
    forall i | 0 <= i < |seen|
      ensures Enabled(states[i], c, seen[i]) && states[i + 1] == After(states[i], c, seen[i])
    {
      if i > 0 {
        assert states[i] == rest[i - 1] && seen[i] == more[i - 1] && states[i + 1] == rest[i];
      }
    }
  }
}
