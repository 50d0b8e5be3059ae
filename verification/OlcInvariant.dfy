/** What holds in every reachable state of the step system. */
module OlcInvariant {
  import opened Entries
  import opened OlcNode
  import opened OlcProtocol
  import opened OlcSpec

  predicate Covers(span: Span, k: Key) {
    && (span.lo.Some? ==> span.lo.value < k)
    && (span.hi.Some? ==> k <= span.hi.value)
  }

  predicate Before(a: Span, b: Span) {
    a.hi.Some? && b.lo.Some? && a.hi.value <= b.lo.value
  }

  predicate Apart(a: Span, b: Span) {
    Before(a, b) || Before(b, a)
  }

  function ChildSpan(span: Span, keys: seq<Key>, i: nat): Span
    requires i <= |keys| && span.level > 0
  {
    Span(if i == 0 then span.lo else Some(keys[i - 1]),
         if i == |keys| then span.hi else Some(keys[i]),
         span.level - 1)
  }

  // A separator is the greatest key to its left and nothing is ever deleted, so a leaf with a
  // finite upper bound holds that bound.
  ghost predicate LeafOk(data: seq<Entry>, span: Span) {
    && span.level == 0
    && |data| <= LEAF_MAX
    && Sorted(KeysOf(data))
    && (forall i :: 0 <= i < |data| ==> Covers(span, data[i].key))
    && (span.hi.Some? ==> span.hi.value in KeysOf(data))
  }

  ghost predicate KeysInside(keys: seq<Key>, span: Span) {
    forall i :: 0 <= i < |keys| ==> Covers(span, keys[i]) && span.hi != Some(keys[i])
  }

  ghost predicate InnerOk(cells: map<NodeId, Cell>, keys: seq<Key>, children: seq<NodeId>, span: Span) {
    && span.level > 0
    && 1 <= |keys| <= INNER_FULL
    && |children| == |keys| + 1
    && Sorted(keys)
    && KeysInside(keys, span)
    && forall i :: 0 <= i < |children| ==>
         children[i] in cells && cells[children[i]].span == ChildSpan(span, keys, i)
  }

  ghost predicate CellOk(cells: map<NodeId, Cell>, n: NodeId)
    requires n in cells
  {
    && !Obsolete(cells[n].word)
    && match cells[n].node
       case Leaf(data) => LeafOk(data, cells[n].span)
       case Inner(keys, children) => InnerOk(cells, keys, children, cells[n].span)
  }

  /** A leaf says about every key it is responsible for what the map says. */
  ghost predicate Agrees(data: seq<Entry>, span: Span, m: map<Key, Value>) {
    forall k {:trigger LeafGet(data, k)} :: Covers(span, k) ==> LeafGet(data, k) == MapGet(m, k)
  }

  // Nodes of one level share no key.
  ghost predicate PairwiseApart(cells: map<NodeId, Cell>, ids: set<NodeId>)
    requires ids <= cells.Keys
  {
    forall a, b | a in ids && b in ids && a != b && cells[a].span.level == cells[b].span.level ::
      Apart(cells[a].span, cells[b].span)
  }

  ghost predicate TreeOk(s: State, m: map<Key, Value>) {
    && s.root in s.cells
    && s.cells[s.root].span.lo == None && s.cells[s.root].span.hi == None
    && (forall n :: n in s.cells ==> CellOk(s.cells, n) && s.cells[n].span.level <= s.cells[s.root].span.level)
    && PairwiseApart(s.cells, s.cells.Keys)
    && (forall n :: n in s.cells && s.cells[n].node.Leaf? ==> Agrees(s.cells[n].node.data, s.cells[n].span, m))
  }

  predicate Holds(pc: Pc, n: NodeId) {
    match pc
    case LeafRecheck(_, node) => n == node
    case LeafWrite(node) => n == node
    case LeafUnlock(node) => n == node
    case SplitNode(held, _) => held == Some(n)
    case SplitRoot(node) => n == node
    case SplitDo(held, node) => n == node || held == Some(n)
    case SplitUnlock(held, node) => n == node || held == Some(n)
    case Release(node) => n == node
    case _ => false
  }

  // A reference was read from an unlocked word, and words only grow.
  ghost predicate RefOk(s: State, r: Ref) {
    && r.id in s.cells
    && !Locked(r.ver) && !Obsolete(r.ver)
    && r.ver <= s.cells[r.id].word
  }

  ghost predicate CoversNow(s: State, r: Ref, k: Key) {
    RefOk(s, r) && (Current(s, r) ==> Covers(s.cells[r.id].span, k))
  }

  // The descent passed through p to child; an insert only passes nodes with a free slot.
  ghost predicate Parent(cell: Cell, op: Op, child: NodeId) {
    && IsChild(cell.node, op.k, child)
    && Covers(cell.span, op.k)
    && (op.Insert? ==> !cell.node.Full())
  }

  ghost predicate ParentNow(s: State, p: Ref, op: Op, child: NodeId) {
    RefOk(s, p) && (Current(s, p) ==> Parent(s.cells[p.id], op, child))
  }

  ghost predicate Entered(s: State, parent: Option<Ref>, r: Ref, op: Op) {
    && RefOk(s, r)
    && match parent
       case None => CoversNow(s, r, op.k)
       case Some(p) => ParentNow(s, p, op, r.id)
  }

  ghost predicate FullNow(s: State, r: Ref) {
    RefOk(s, r) && (Current(s, r) ==> s.cells[r.id].node.Full())
  }

  ghost predicate RoomNow(s: State, r: Ref, op: Op) {
    RefOk(s, r) && (Current(s, r) && op.Insert? ==> !s.cells[r.id].node.Full())
  }

  ghost predicate ResultNow(s: State, r: Ref, op: Op, res: Result) {
    && RefOk(s, r)
    && s.cells[r.id].node.Leaf?
    && (Current(s, r) ==> res == ReadLeaf(op, s.cells[r.id].node.data))
  }

  ghost predicate Owns(s: State, n: NodeId) {
    n in s.cells && Locked(s.cells[n].word)
  }

  ghost predicate OwnsOpt(s: State, held: Option<NodeId>) {
    held.Some? ==> Owns(s, held.value)
  }

  ghost predicate Split(s: State, held: Option<NodeId>, n: NodeId, op: Op)
    requires n in s.cells
  {
    match held
    case None => true
    case Some(p) => Owns(s, p) && Parent(s.cells[p], op, n)
  }

  /** What a call knows at each of its program points. */
  ghost predicate CallOk(s: State, call: Call) {
    var op := call.op;
    match call.pc
    case Start => true
    case RootLoaded(n) => n in s.cells
    case RootRead(r) => RefOk(s, r)
    case AtNode(parent, r) => Entered(s, parent, r, op)
    case CheckParent(p, r) =>
      ParentNow(s, p, op, r.id) && RefOk(s, r) && s.cells[r.id].node.Inner? && RoomNow(s, r, op)
    case ReadChild(r) => CoversNow(s, r, op.k) && s.cells[r.id].node.Inner? && RoomNow(s, r, op)
    case CheckInner(r, child) =>
      && CoversNow(s, r, op.k) && RoomNow(s, r, op)
      && (Current(s, r) ==> IsChild(s.cells[r.id].node, op.k, child))
    case LockChild(r, child) => ParentNow(s, r, op, child) && child in s.cells
    case LeafLock(parent, r) =>
      Entered(s, parent, r, op) && op.Insert? && s.cells[r.id].node.Leaf? && RoomNow(s, r, op)
    case LeafRecheck(p, n) =>
      && ParentNow(s, p, op, n) && op.Insert?
      && Owns(s, n) && s.cells[n].node.Leaf? && !s.cells[n].node.Full()
    case LeafWrite(n) =>
      && op.Insert? && Owns(s, n)
      && s.cells[n].node.Leaf? && !s.cells[n].node.Full() && Covers(s.cells[n].span, op.k)
    case LeafUnlock(n) => op.Insert? && Owns(s, n)
    case SplitParent(p, r) => ParentNow(s, p, op, r.id) && op.Insert? && FullNow(s, r)
    case SplitNode(held, r) => op.Insert? && FullNow(s, r) && Split(s, held, r.id, op)
    case SplitRoot(n) => op.Insert? && Owns(s, n) && s.cells[n].node.Full()
    case SplitDo(held, n) =>
      && op.Insert? && Owns(s, n) && s.cells[n].node.Full() && Split(s, held, n, op)
      && (held.None? ==> s.root == n)
    case SplitUnlock(held, n) => op.Insert? && Owns(s, n) && OwnsOpt(s, held) && held != Some(n)
    case Release(n) => op.Insert? && Owns(s, n)
    case ReadCheckParent(p, r, res) => !op.Insert? && ParentNow(s, p, op, r.id) && ResultNow(s, r, op, res)
    case ReadCheckNode(r, res) => !op.Insert? && CoversNow(s, r, op.k) && ResultNow(s, r, op, res)
    case Return(_) => true
    case Done(_) => true
  }

  // How far a call has got according to the trace.
  ghost predicate PhaseOk(trace: seq<Event>, c: CallId, call: Call) {
    && Invoke(c, call.op) in trace
    && match call.pc
       case LeafUnlock(_) => Commit(c, call.op, Unit) in trace && !Responded(trace, c)
       case Return(res) => Commit(c, call.op, res) in trace && !Responded(trace, c)
       case Done(res) => Commit(c, call.op, res) in trace && Respond(c, res) in trace
       case _ => !Committed(trace, c) && !Responded(trace, c)
  }

  ghost predicate Committed(trace: seq<Event>, c: CallId) {
    exists e :: e in trace && e.Commit? && e.id == c
  }

  ghost predicate Responded(trace: seq<Event>, c: CallId) {
    exists e :: e in trace && e.Respond? && e.id == c
  }

  ghost predicate Exclusive(s: State) {
    forall c, d, n :: c in s.calls && d in s.calls && Holds(s.calls[c].pc, n) && Holds(s.calls[d].pc, n) ==> c == d
  }

  // No lock is ever left behind.
  ghost predicate NoOrphans(s: State) {
    forall n :: n in s.cells && Locked(s.cells[n].word) ==> exists c :: c in s.calls && Holds(s.calls[c].pc, n)
  }

  ghost predicate TraceOk(s: State) {
    && Linearizable(s.trace)
    && (forall e :: e in s.trace ==> e.id in s.calls)
    && (forall c :: c in s.calls ==> PhaseOk(s.trace, c, s.calls[c]))
  }

  // The part about calls, their locks and what they know.
  ghost predicate CallsOk(s: State) {
    && (forall c :: c in s.calls ==> CallOk(s, s.calls[c]))
    && Exclusive(s)
    && NoOrphans(s)
  }

  ghost predicate Inv(s: State) {
    && TreeOk(s, Replay(s.trace))
    && CallsOk(s)
    && TraceOk(s)
  }
}
