/** The promises of the concurrent tree, over every run. */
module OlcTheorems {
  import opened Entries
  import opened OlcNode
  import opened OlcProtocol
  import opened OlcSpec
  import opened OlcInvariant
  import opened OlcTree
  import opened OlcSteps

  lemma InitInv(s: State)
    requires Init(s)
    ensures Inv(s)
  {
    assert CellOk(s.cells, 0);
  }

  lemma NextKeepsInv(s: State, m: Move, s': State)
    requires Inv(s) && NextBy(s, m, s')
    ensures Inv(s')
  {
    match m
    case Arrive(c, op) => BeginStep(s, c, op);
    case Advance(c, o) => StepKeepsInv(s, c, o);
  }

  /** The invariant holds in every state of every run. */
  lemma {:induction false} RunInv(states: seq<State>, moves: seq<Move>, i: nat)
    requires Run(states, moves) && i < |states|
    ensures Inv(states[i])
  {
    if i == 0 {
      InitInv(states[0]);
    } else {
      RunInv(states, moves, i - 1);
      NextKeepsInv(states[i - 1], moves[i - 1], states[i]);
    }
  }

  /** Every run is linearizable: its calls answer as if each took effect in one instant between its
      invocation and its response, and a finished call took effect exactly once. */
  lemma RunsLinearizable(states: seq<State>, moves: seq<Move>, i: nat)
    requires Run(states, moves) && i < |states|
    ensures Linearizable(states[i].trace)
    ensures forall c :: c in states[i].calls && states[i].calls[c].pc.Done? ==>
              var call := states[i].calls[c];
              Commit(c, call.op, call.pc.res) in states[i].trace && Respond(c, call.pc.res) in states[i].trace
  {
    RunInv(states, moves, i);
    forall c | c in states[i].calls && states[i].calls[c].pc.Done?
      ensures var call := states[i].calls[c];
              Commit(c, call.op, call.pc.res) in states[i].trace && Respond(c, call.pc.res) in states[i].trace
    {
      assert PhaseOk(states[i].trace, c, states[i].calls[c]);
    }
  }

  // ---------------------------------------------------------------- the map in memory

  /** A plain descent from node n through at most h inner nodes. */
  function Seek(cells: map<NodeId, Cell>, n: NodeId, k: Key, h: nat): Option<Value>
    decreases h
  {
    if n !in cells then None else
    match cells[n].node
    case Leaf(data) => LeafGet(data, k)
    case Inner(keys, children) =>
      var i := LowerBound(keys, k);
      if h == 0 || i >= |children| then None else Seek(cells, children[i], k, h - 1)
  }

  lemma {:induction false} SeekFinds(s: State, m: map<Key, Value>, n: NodeId, k: Key, h: nat)
    requires TreeOk(s, m) && n in s.cells && Covers(s.cells[n].span, k) && s.cells[n].span.level <= h
    ensures Seek(s.cells, n, k, h) == MapGet(m, k)
    decreases h
  {
    assert CellOk(s.cells, n);
    match s.cells[n].node
    case Leaf(data) => assert Agrees(data, s.cells[n].span, m);
    case Inner(keys, children) =>
      var child := children[LowerBound(keys, k)];
      Descend(s, m, n, k, child);
      SeekFinds(s, m, child, k, h - 1);
  }

  /** In every state of every run the tree in memory is exactly the map of the committed inserts:
      a descent from the root finds, for every key, the value of its last committed insert. */
  lemma MemoryIsTheMap(states: seq<State>, moves: seq<Move>, i: nat, k: Key)
    requires Run(states, moves) && i < |states|
    ensures states[i].root in states[i].cells
    ensures Seek(states[i].cells, states[i].root, k, states[i].cells[states[i].root].span.level)
            == MapGet(Replay(states[i].trace), k)
  {
    RunInv(states, moves, i);
    var s := states[i];
    SeekFinds(s, Replay(s.trace), s.root, k, s.cells[s.root].span.level);
  }

  /** One step changes the map only if it is the leaf write of an insert, and then by that insert. */
  lemma OnlyWritesChangeTheMap(states: seq<State>, moves: seq<Move>, i: nat)
    requires Run(states, moves) && i < |moves|
    ensures var s, s', m := states[i], states[i + 1], moves[i];
            Replay(s'.trace) ==
            if m.Advance? && m.c in s.calls && s.calls[m.c].pc.LeafWrite? && s.calls[m.c].op.Insert?
            then Replay(s.trace)[s.calls[m.c].op.k := s.calls[m.c].op.v]
            else Replay(s.trace)
  {
    RunInv(states, moves, i);
    var s, s', m := states[i], states[i + 1], moves[i];
    match m
    case Arrive(c, op) => ReplayAppend(s.trace, Invoke(c, op));
    case Advance(c, o) =>
      assert CallOk(s, s.calls[c]);
      match s.calls[c].pc
      case LeafWrite(n) => ReplayAppend(s.trace, Commit(c, s.calls[c].op, Unit));
      case ReadCheckNode(r, res) => ReplayAppend(s.trace, Commit(c, s.calls[c].op, res));
      case Return(res) => ReplayAppend(s.trace, Respond(c, res));
      case _ => assert s'.trace == s.trace;
  }

  // ---------------------------------------------------------------- asserts, pointers, locks

  /** The capacity asserts of BTreeLeaf::insert and BTreeInner::insert never fire, and the leaf that
      is written is the one whose key range covers the key. */
  lemma CapacityHolds(states: seq<State>, moves: seq<Move>, i: nat, c: CallId)
    requires Run(states, moves) && i < |states| && c in states[i].calls
    ensures var s, call := states[i], states[i].calls[c];
            match call.pc
            case LeafWrite(n) =>
              && n in s.cells && s.cells[n].node.Leaf?
              && |s.cells[n].node.data| < LEAF_MAX && Covers(s.cells[n].span, call.op.k)
            case SplitDo(Some(p), n) =>
              p in s.cells && s.cells[p].node.Inner? && |s.cells[p].node.keys| < INNER_MAX - 1
            case _ => true
  {
    RunInv(states, moves, i);
    var s := states[i];
    assert CallOk(s, s.calls[c]);
    if s.calls[c].pc.SplitDo? && s.calls[c].pc.held.Some? {
      assert CellOk(s.cells, s.calls[c].pc.held.value);
    }
  }

  // A read of what is there now, and identifiers that are not in use.
  ghost function Honest(s: State, call: Call): Obs
    requires Touched(call) <= s.cells.Keys && CastsOk(s, call)
  {
    match call.pc
    case AtNode(_, r) =>
      var node := s.cells[r.id].node;
      if call.op.Insert? then SawFull(node.Full())
      else if node.Leaf? then SawResult(ReadLeaf(call.op, node.data))
      else Quiet
    case ReadChild(r) =>
      var node := s.cells[r.id].node;
      SawChild(node.children[LowerBound(node.keys, call.op.k)])
    case SplitDo(_, _) => Allocated(Unused(s.cells.Keys), Unused(s.cells.Keys) + 1)
    case _ => Quiet
  }

  // An identifier above all those in use.
  ghost function Unused(ids: set<nat>): (n: nat)
    ensures forall x :: x in ids ==> x < n
    decreases |ids|
  {
    if ids == {} then 0 else
    var y :| y in ids;
    var n := Unused(ids - {y});
    assert forall x :: x in ids ==> x == y || x in ids - {y};
    if y < n then n else y + 1
  }

  lemma Safe(s: State, m: map<Key, Value>, call: Call)
    requires TreeOk(s, m) && CallOk(s, call)
    ensures Touched(call) <= s.cells.Keys && CastsOk(s, call)
  {
    match call.pc
    case ReadChild(r) => assert CellOk(s.cells, r.id);
    case SplitDo(held, n) =>
      assert CellOk(s.cells, n);
      SeparatorInside(s.cells, n);
      if held.Some? {
        assert CellOk(s.cells, held.value);
      }
    case _ =>
  }

  lemma HonestEnabled(s: State, c: CallId)
    requires c in s.calls && !s.calls[c].pc.Done?
    requires Touched(s.calls[c]) <= s.cells.Keys && CastsOk(s, s.calls[c])
    ensures Enabled(s, c, Honest(s, s.calls[c]))
  {
  }

  /** No call is ever stuck: every unfinished call can take its next step, it only touches allocated
      nodes, and every cast it relies on is right. */
  lemma NeverStuck(states: seq<State>, moves: seq<Move>, i: nat, c: CallId)
    requires Run(states, moves) && i < |states| && c in states[i].calls
    ensures Touched(states[i].calls[c]) <= states[i].cells.Keys && CastsOk(states[i], states[i].calls[c])
    ensures !states[i].calls[c].pc.Done? ==> Enabled(states[i], c, Honest(states[i], states[i].calls[c]))
  {
    RunInv(states, moves, i);
    var s := states[i];
    assert CallOk(s, s.calls[c]);
    Safe(s, Replay(s.trace), s.calls[c]);
    if !s.calls[c].pc.Done? {
      HonestEnabled(s, c);
    }
  }

  /** Locks are exclusive and none is left behind: a locked node has exactly one holder, and a state in
      which every call is done has no locked node. */
  lemma LocksBalanced(states: seq<State>, moves: seq<Move>, i: nat, n: NodeId)
    requires Run(states, moves) && i < |states| && n in states[i].cells
    ensures var s := states[i];
            Locked(s.cells[n].word) <==> exists c :: c in s.calls && Holds(s.calls[c].pc, n)
    ensures var s := states[i];
            forall c, d :: c in s.calls && d in s.calls && Holds(s.calls[c].pc, n) && Holds(s.calls[d].pc, n) ==> c == d
    ensures (forall c :: c in states[i].calls ==> states[i].calls[c].pc.Done?) ==> !Locked(states[i].cells[n].word)
  {
    RunInv(states, moves, i);
    var s := states[i];
    if c :| c in s.calls && Holds(s.calls[c].pc, n) {
      assert CallOk(s, s.calls[c]);
    }
  }
}
