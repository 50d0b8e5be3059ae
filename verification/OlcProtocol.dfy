/** The optimistic-lock-coupling B+tree as a step system. Every atomic load, compare-and-swap,
    fetch-add or store of `BTree::insert`, `lookup` and `scan` is one step of one call, and any
    number of calls are interleaved arbitrarily. Reading a node without its lock takes many plain
    loads, so it is one step whose outcome is arbitrary unless the version word still has the value
    read before (a torn read). What a lock holder writes before unlocking is one step: no other call
    can tell, because a node that is locked never has a version that a reader holds. */
module OlcProtocol {
  import opened Entries
  import opened OlcNode

  type NodeId = nat
  type CallId = nat

  datatype Node = Leaf(data: seq<Entry>) | Inner(keys: seq<Key>, children: seq<NodeId>)
  {
    predicate Full() {
      match this
      case Leaf(data) => |data| == LEAF_MAX
      case Inner(keys, _) => |keys| == INNER_FULL
    }
  }

  // The keys a node is responsible for, lo < k <= hi, and its height.
  datatype Span = Span(lo: Option<Key>, hi: Option<Key>, level: nat)

  // word = version << 2 | locked << 1 | obsolete; no step of this tree sets the obsolete bit.
  // The span is auxiliary: it is not in memory and no step reads it.
  datatype Cell = Cell(word: nat, node: Node, span: Span)

  predicate Locked(w: nat) { (w / 2) % 2 == 1 }

  predicate Obsolete(w: nat) { w % 2 == 1 }

  const FRESH_WORD: nat := 4

  datatype Op = Insert(k: Key, v: Value) | Lookup(k: Key) | Scan(k: Key, range: nat)

  datatype Result = Unit | Found(r: Option<Value>) | Scanned(vals: seq<Value>)

  datatype Event =
    | Invoke(id: CallId, op: Op)
    | Commit(id: CallId, op: Op, res: Result)
    | Respond(id: CallId, res: Result)

  // A node pointer with the version word that was read for it.
  datatype Ref = Ref(id: NodeId, ver: nat)

  datatype Pc =
    | Start                                            // restart label: load root
    | RootLoaded(node: NodeId)                         // readLockOrRestart(root)
    | RootRead(r: Ref)                                 // compare with root again
    | AtNode(parent: Option<Ref>, r: Ref)              // head of the descent loop, or the leaf
    | CheckParent(p: Ref, r: Ref)                      // parent->readUnlockOrRestart
    | ReadChild(r: Ref)                                // children[lowerBound(k)]
    | CheckInner(r: Ref, child: NodeId)                // inner->checkOrRestart
    | LockChild(r: Ref, child: NodeId)                 // child->readLockOrRestart
    | LeafLock(parent: Option<Ref>, r: Ref)            // upgrade the leaf
    | LeafRecheck(p: Ref, node: NodeId)                // leaf locked, validate the parent
    | LeafWrite(node: NodeId)                          // leaf->insert
    | LeafUnlock(node: NodeId)
    | SplitParent(p: Ref, r: Ref)                      // upgrade the parent of a full node
    | SplitNode(held: Option<NodeId>, r: Ref)        // upgrade the full node
    | SplitRoot(node: NodeId)                          // no parent: is it still the root?
    | SplitDo(held: Option<NodeId>, node: NodeId)    // split, then parent->insert or makeRoot
    | SplitUnlock(held: Option<NodeId>, node: NodeId)
    | Release(node: NodeId)                            // unlock one node, then restart
    | ReadCheckParent(p: Ref, r: Ref, res: Result)     // lookup, scan: validate the parent
    | ReadCheckNode(r: Ref, res: Result)               // lookup, scan: validate the leaf
    | Return(res: Result)
    | Done(res: Result)

  datatype Call = Call(op: Op, pc: Pc)

  datatype State = State(
    cells: map<NodeId, Cell>,
    root: NodeId,
    calls: map<CallId, Call>,
    trace: seq<Event>)

  // What a step saw or was given by the environment.
  datatype Obs =
    | Quiet
    | SawFull(full: bool)
    | SawChild(child: NodeId)
    | SawResult(res: Result)
    | Allocated(right: NodeId, top: NodeId)

  /** What a lookup or scan reads off a leaf. */
  function ReadLeaf(op: Op, data: seq<Entry>): (res: Result)
  {
    match op
    case Insert(_, _) => Unit
    case Lookup(k) => Found(LeafGet(data, k))
    case Scan(k, range) => Scanned(LeafScan(data, k, range))
  }

  predicate IsChild(node: Node, k: Key, child: NodeId) {
    node.Inner? &&
    var i := LowerBound(node.keys, k);
    i < |node.children| && node.children[i] == child
  }

  // ---------------------------------------------------------------- steps

  predicate Init(s: State) {
    s == State(map[0 := Cell(FRESH_WORD, Leaf([]), Span(None, None, 0))], 0, map[], [])
  }

  function SetPc(s: State, c: CallId, pc: Pc): State
    requires c in s.calls
  {
    s.(calls := s.calls[c := s.calls[c].(pc := pc)])
  }

  // Both upgradeToWriteLock and writeUnlock add 0b10 to the word.
  function AddTwo(s: State, n: NodeId): State
    requires n in s.cells
  {
    s.(cells := s.cells[n := s.cells[n].(word := s.cells[n].word + 2)])
  }

  function Log(s: State, e: Event): State {
    s.(trace := s.trace + [e])
  }

  predicate Current(s: State, r: Ref)
    requires r.id in s.cells
  {
    s.cells[r.id].word == r.ver
  }

  /** The nodes whose memory a call touches in its next step. */
  function Touched(call: Call): set<NodeId> {
    match call.pc
    case Start => {}
    case RootLoaded(n) => {n}
    case RootRead(r) => {}
    case AtNode(_, r) => {r.id}
    case CheckParent(p, _) => {p.id}
    case ReadChild(r) => {r.id}
    case CheckInner(r, _) => {r.id}
    case LockChild(_, child) => {child}
    case LeafLock(_, r) => {r.id}
    case LeafRecheck(p, _) => {p.id}
    case LeafWrite(n) => {n}
    case LeafUnlock(n) => {n}
    case SplitParent(p, _) => {p.id}
    case SplitNode(_, r) => {r.id}
    case SplitRoot(n) => {}
    case SplitDo(parent, n) => {n} + (if parent.Some? then {parent.value} else {})
    case SplitUnlock(_, n) => {n}
    case Release(n) => {n}
    case ReadCheckParent(p, _, _) => {p.id}
    case ReadCheckNode(r, _) => {r.id}
    case Return(_) => {}
    case Done(_) => {}
  }

  /** Node kinds the casts of the next step rely on. */
  predicate CastsOk(s: State, call: Call)
    requires Touched(call) <= s.cells.Keys
  {
    match call.pc
    case ReadChild(r) => var n := s.cells[r.id].node; n.Inner? && LowerBound(n.keys, call.op.k) < |n.children|
    case LeafWrite(n) => s.cells[n].node.Leaf? && call.op.Insert?
    case SplitDo(parent, n) =>
      && Splittable(s.cells[n].node)
      && (parent.Some? ==>
            var p := s.cells[parent.value].node;
            p.Inner? && |p.children| == |p.keys| + 1)
    case _ => true
  }

  predicate Splittable(node: Node) {
    match node
    case Leaf(data) => |data| >= 2
    case Inner(keys, children) => |keys| >= 4 && |children| == |keys| + 1
  }

  function LeftPart(node: Node): Node
    requires Splittable(node)
  {
    match node
    case Leaf(data) => Leaf(data[..LeafCut(data)])
    case Inner(keys, children) => Inner(keys[..InnerCut(keys)], children[..InnerCut(keys) + 1])
  }

  function RightPart(node: Node): Node
    requires Splittable(node)
  {
    match node
    case Leaf(data) => Leaf(data[LeafCut(data)..])
    case Inner(keys, children) => Inner(keys[InnerCut(keys) + 1..], children[InnerCut(keys) + 1..])
  }

  function Separator(node: Node): Key
    requires Splittable(node)
  {
    match node
    case Leaf(data) => data[LeafCut(data) - 1].key
    case Inner(keys, _) => keys[InnerCut(keys)]
  }

  /** Whether the observation of a step is one the memory allows. */
  predicate Enabled(s: State, c: CallId, o: Obs) {
    c in s.calls &&
    var call := s.calls[c];
    && Touched(call) <= s.cells.Keys
    && CastsOk(s, call)
    && match call.pc
       case AtNode(_, r) =>
         var cell := s.cells[r.id];
         if call.op.Insert? then
           o.SawFull? && (Current(s, r) ==> o.full == cell.node.Full())
         else if cell.node.Leaf? then
           o.SawResult? && (Current(s, r) ==> o.res == ReadLeaf(call.op, cell.node.data))
         else
           o.Quiet?
       case ReadChild(r) =>
         o.SawChild? && (Current(s, r) ==> IsChild(s.cells[r.id].node, call.op.k, o.child))
       case SplitDo(_, _) =>
         o.Allocated? && o.right !in s.cells && o.top !in s.cells && o.right != o.top
       case Done(_) => false
       case _ => o.Quiet?
  }

  function Validate(s: State, c: CallId, r: Ref, next: Pc, failed: Pc): State
    requires c in s.calls && r.id in s.cells
  {
    SetPc(s, c, if Current(s, r) then next else failed)
  }

  function ReadLock(s: State, c: CallId, n: NodeId, next: Ref -> Pc): State
    requires c in s.calls && n in s.cells
  {
    var w := s.cells[n].word;
    SetPc(s, c, if Locked(w) || Obsolete(w) then Start else next(Ref(n, w)))
  }

  function Upgrade(s: State, c: CallId, r: Ref, next: Pc, failed: Pc): State
    requires c in s.calls && r.id in s.cells
  {
    if Current(s, r) then SetPc(AddTwo(s, r.id), c, next) else SetPc(s, c, failed)
  }

  /** The state after call `c` takes its next step. */
  function After(s: State, c: CallId, o: Obs): (s': State)
    requires Enabled(s, c, o)
  {
    var call := s.calls[c];
    match call.pc
    case Start => SetPc(s, c, RootLoaded(s.root))
    case RootLoaded(n) => ReadLock(s, c, n, r => RootRead(r))
    case RootRead(r) => SetPc(s, c, if r.id == s.root then AtNode(None, r) else Start)
    case AtNode(parent, r) =>
      var leaf := s.cells[r.id].node.Leaf?;
      SetPc(s, c,
        if call.op.Insert? && o.full then
          (if parent.Some? then SplitParent(parent.value, r) else SplitNode(None, r))
        else if !leaf then
          (if parent.Some? then CheckParent(parent.value, r) else ReadChild(r))
        else if call.op.Insert? then
          LeafLock(parent, r)
        else
          (if parent.Some? then ReadCheckParent(parent.value, r, o.res) else ReadCheckNode(r, o.res)))
    case CheckParent(p, r) => Validate(s, c, p, ReadChild(r), Start)
    case ReadChild(r) => SetPc(s, c, CheckInner(r, o.child))
    case CheckInner(r, child) => Validate(s, c, r, LockChild(r, child), Start)
    case LockChild(p, child) => ReadLock(s, c, child, r => AtNode(Some(p), r))
    case LeafLock(parent, r) =>
      Upgrade(s, c, r, if parent.Some? then LeafRecheck(parent.value, r.id) else LeafWrite(r.id), Start)
    case LeafRecheck(p, n) => Validate(s, c, p, LeafWrite(n), Release(n))
    case LeafWrite(n) => WriteLeaf(s, c, n)
    case LeafUnlock(n) => SetPc(AddTwo(s, n), c, Return(Unit))
    case SplitParent(p, r) => Upgrade(s, c, p, SplitNode(Some(p.id), r), Start)
    case SplitNode(parent, r) =>
      Upgrade(s, c, r, if parent.Some? then SplitDo(parent, r.id) else SplitRoot(r.id),
              if parent.Some? then Release(parent.value) else Start)
    case SplitRoot(n) => SetPc(s, c, if n == s.root then SplitDo(None, n) else Release(n))
    case SplitDo(parent, n) =>
      if parent.Some? then SplitUnder(s, c, parent.value, n, o.right) else SplitTop(s, c, n, o.right, o.top)
    case SplitUnlock(parent, n) =>
      SetPc(AddTwo(s, n), c, if parent.Some? then Release(parent.value) else Start)
    case Release(n) => SetPc(AddTwo(s, n), c, Start)
    case ReadCheckParent(p, r, res) => Validate(s, c, p, ReadCheckNode(r, res), Start)
    case ReadCheckNode(r, res) =>
      if Current(s, r) then SetPc(Log(s, Commit(c, call.op, res)), c, Return(res)) else SetPc(s, c, Start)
    case Return(res) => SetPc(Log(s, Respond(c, res)), c, Done(res))
  }

  function WriteLeaf(s: State, c: CallId, n: NodeId): State
    requires c in s.calls && n in s.cells && s.cells[n].node.Leaf? && s.calls[c].op.Insert?
  {
    var op := s.calls[c].op;
    var cell := s.cells[n];
    SetPc(Log(s.(cells := s.cells[n := cell.(node := Leaf(LeafPut(cell.node.data, op.k, op.v)))]),
              Commit(c, op, Unit)),
          c, LeafUnlock(n))
  }

  // The node keeps its left part; the rest moves to the new node. Spans follow the separator.
  function Halve(s: State, n: NodeId, right: NodeId): State
    requires n in s.cells && Splittable(s.cells[n].node)
  {
    var cell := s.cells[n];
    var sep := Some(Separator(cell.node));
    s.(cells := s.cells[n := cell.(node := LeftPart(cell.node), span := cell.span.(hi := sep))]
                       [right := Cell(FRESH_WORD, RightPart(cell.node), cell.span.(lo := sep))])
  }

  function SplitUnder(s: State, c: CallId, p: NodeId, n: NodeId, right: NodeId): State
    requires c in s.calls && p in s.cells && n in s.cells && Splittable(s.cells[n].node)
    requires s.cells[p].node.Inner? && |s.cells[p].node.children| == |s.cells[p].node.keys| + 1
  {
    var h := Halve(s, n, right);
    var cell, sep := s.cells[p], Separator(s.cells[n].node);
    var node := Inner(InsertKey(cell.node.keys, sep), InsertChild(cell.node.keys, cell.node.children, sep, right));
    SetPc(h.(cells := h.cells[p := cell.(node := node)]), c, SplitUnlock(Some(p), n))
  }

  function SplitTop(s: State, c: CallId, n: NodeId, right: NodeId, top: NodeId): State
    requires c in s.calls && n in s.cells && Splittable(s.cells[n].node)
  {
    var h := Halve(s, n, right);
    var cell := s.cells[n];
    var node := Inner([Separator(cell.node)], [n, right]);
    SetPc(h.(cells := h.cells[top := Cell(FRESH_WORD, node, cell.span.(level := cell.span.level + 1))], root := top),
          c, SplitUnlock(None, n))
  }

  function Begin(s: State, c: CallId, op: Op): State {
    Log(s.(calls := s.calls[c := Call(op, Start)]), Invoke(c, op))
  }

  datatype Move = Arrive(c: CallId, op: Op) | Advance(c: CallId, o: Obs)

  ghost predicate NextBy(s: State, m: Move, s': State) {
    match m
    case Arrive(c, op) => c !in s.calls && s' == Begin(s, c, op)
    case Advance(c, o) => Enabled(s, c, o) && s' == After(s, c, o)
  }

  /** A run: consecutive states are related by some move of some call. */
  ghost predicate Run(states: seq<State>, moves: seq<Move>) {
    && |states| == |moves| + 1
    && Init(states[0])
    && forall i :: 0 <= i < |moves| ==> NextBy(states[i], moves[i], states[i + 1])
  }
}
