/** Every step of every call keeps the invariant. */
module OlcSteps {
  import opened Entries
  import opened OlcNode
  import opened OlcProtocol
  import opened OlcSpec
  import opened OlcInvariant
  import opened OlcRely
  import opened OlcTree

  // ---------------------------------------------------------------- the trace

  lemma ReplayAppend(trace: seq<Event>, e: Event)
    ensures Replay(trace + [e]) ==
            if e.Commit? && e.op.Insert? then Replay(trace)[e.op.k := e.op.v] else Replay(trace)
  {
    assert (trace + [e])[..|trace|] == trace;
  }

  ghost predicate Unused(trace: seq<Event>, e: Event) {
    forall x :: x in trace ==> !SameSlot(x, e)
  }

  lemma LinearizableAppend(trace: seq<Event>, e: Event)
    requires Linearizable(trace) && EventOk(trace, e) && Unused(trace, e)
    ensures Linearizable(trace + [e])
  {
    var t := trace + [e];
    forall j | 0 <= j < |t|
      ensures EventOk(t[..j], t[j])
    {
      assert t[..j] == trace[..j];
      assert trace[..|trace|] == trace;
    }
    forall i, j | 0 <= i < j < |t|
      ensures !SameSlot(t[i], t[j])
    {
      if j == |trace| {
        assert trace[i] in trace;
      }
    }
  }

  lemma PhaseAppend(trace: seq<Event>, e: Event, d: CallId, call: Call)
    requires PhaseOk(trace, d, call) && e.id != d
    ensures PhaseOk(trace + [e], d, call)
  {
    assert Committed(trace + [e], d) ==> Committed(trace, d);
    assert Responded(trace + [e], d) ==> Responded(trace, d);
  }

  lemma TraceSame(s: State, s': State, c: CallId)
    requires TraceOk(s) && c in s.calls && OnlyMoved(s, s', c)
    requires s'.trace == s.trace && PhaseOk(s.trace, c, s'.calls[c])
    ensures TraceOk(s')
  {
  }

  lemma TraceGrows(s: State, s': State, c: CallId, e: Event)
    requires TraceOk(s) && OnlyMoved(s, s', c) && e.id == c
    requires s'.trace == s.trace + [e] && PhaseOk(s'.trace, c, s'.calls[c])
    requires EventOk(s.trace, e) && Unused(s.trace, e)
    ensures TraceOk(s')
  {
    LinearizableAppend(s.trace, e);
    forall d | d in s'.calls
      ensures PhaseOk(s'.trace, d, s'.calls[d])
    {
      if d != c {
        PhaseAppend(s.trace, e, d, s.calls[d]);
      }
    }
  }

  // ---------------------------------------------------------------- steps by their effect

  ghost predicate SameLocks(a: Pc, b: Pc) {
    forall n :: Holds(a, n) <==> Holds(b, n)
  }

  // A call that has not committed stays uncommitted when it only moves on.
  predicate Undecided(pc: Pc) {
    !pc.LeafUnlock? && !pc.Return? && !pc.Done?
  }

  /** A step that changes nothing but the call's own program point. */
  lemma LocalStep(s: State, c: CallId, pc: Pc)
    requires Inv(s) && c in s.calls && Undecided(s.calls[c].pc) && Undecided(pc)
    requires CallOk(s, s.calls[c].(pc := pc)) && SameLocks(s.calls[c].pc, pc)
    ensures Inv(SetPc(s, c, pc))
  {
    var s' := SetPc(s, c, pc);
    Stable(s, s', s.calls[c].(pc := pc));
    Frame(s, s', c);
    TraceSame(s, s', c);
    TreeReword(s, s', Replay(s.trace));
  }

  lemma WordParity(w: nat)
    requires !Obsolete(w)
    ensures !Obsolete(w + 2)
    ensures Locked(w + 2) <==> !Locked(w)
  {
  }

  /** A step that takes or gives back the lock of node n. */
  lemma WordStep(s: State, c: CallId, n: NodeId, pc: Pc)
    requires Inv(s) && c in s.calls && n in s.cells
    requires Locked(s.cells[n].word) <==> Holds(s.calls[c].pc, n)
    requires forall b :: Holds(pc, b) <==> if b == n then !Locked(s.cells[n].word) else Holds(s.calls[c].pc, b)
    requires CallOk(SetPc(AddTwo(s, n), c, pc), s.calls[c].(pc := pc))
    requires PhaseOk(s.trace, c, s.calls[c].(pc := pc))
    ensures Inv(SetPc(AddTwo(s, n), c, pc))
  {
    var s' := SetPc(AddTwo(s, n), c, pc);
    WordTree(s, s', n, Replay(s.trace));
    WordRely(s, s', c, n);
    Frame(s, s', c);
    TraceSame(s, s', c);
  }

  lemma WordTree(s: State, s': State, n: NodeId, m: map<Key, Value>)
    requires TreeOk(s, m) && n in s.cells && s'.root == s.root && s'.cells == AddTwo(s, n).cells
    ensures TreeOk(s', m)
    ensures Locked(s'.cells[n].word) <==> !Locked(s.cells[n].word)
  {
    forall b | b in s.cells
      ensures !Obsolete(s'.cells[b].word)
    {
      assert CellOk(s.cells, b);
    }
    assert CellOk(s.cells, n);
    WordParity(s.cells[n].word);
    TreeReword(s, s', m);
  }

  lemma WordRely(s: State, s': State, c: CallId, n: NodeId)
    requires CallsOk(s) && c in s.calls && n in s.cells && s'.root == s.root && s'.cells == AddTwo(s, n).cells
    requires Locked(s.cells[n].word) <==> Holds(s.calls[c].pc, n)
    ensures forall d :: d in s.calls && d != c ==> Rely(s, s', s.calls[d].pc)
  {
    forall d | d in s.calls && d != c
      ensures Rely(s, s', s.calls[d].pc)
    {
      if Holds(s.calls[d].pc, n) {
        HeldIsLocked(s, s.calls[d], n);
      }
    }
  }

  lemma UpgradeStep(s: State, c: CallId, r: Ref, pc: Pc)
    requires Inv(s) && c in s.calls && RefOk(s, r) && Current(s, r)
    requires Undecided(s.calls[c].pc) && Undecided(pc)
    requires forall b :: Holds(pc, b) <==> b == r.id || Holds(s.calls[c].pc, b)
    requires CallOk(SetPc(AddTwo(s, r.id), c, pc), s.calls[c].(pc := pc))
    ensures Inv(SetPc(AddTwo(s, r.id), c, pc))
  {
    assert CallOk(s, s.calls[c]);
    if Holds(s.calls[c].pc, r.id) {
      HeldIsLocked(s, s.calls[c], r.id);
    }
    WordStep(s, c, r.id, pc);
  }

  // What a write under lock must look like to the other calls.
  ghost predicate WritesHeld(s: State, s': State, c: CallId)
    requires c in s.calls
  {
    && (forall n :: n in s.cells ==>
          && n in s'.cells
          && s'.cells[n].word == s.cells[n].word
          && s'.cells[n].node.Leaf? == s.cells[n].node.Leaf?
          && (s'.cells[n] != s.cells[n] ==> Holds(s.calls[c].pc, n)))
    && (forall n :: n in s'.cells && n !in s.cells ==> !Locked(s'.cells[n].word))
    && (s'.root != s.root ==> Holds(s.calls[c].pc, s.root))
  }

  // A write under lock leaves alone what any other call can rely on.
  lemma WriteRely(s: State, s': State, c: CallId)
    requires CallsOk(s) && c in s.calls && WritesHeld(s, s', c)
    ensures forall d :: d in s.calls && d != c ==> Rely(s, s', s.calls[d].pc)
  {
    forall d, n | d in s.calls && d != c && n in s.cells
      ensures RelyCell(s, s', s.calls[d].pc, n)
    {
      if Holds(s.calls[c].pc, n) {
        HeldIsLocked(s, s.calls[c], n);
      }
    }
  }

  /** A write under lock keeps every call's knowledge. */
  lemma WriteCalls(s: State, s': State, c: CallId)
    requires CallsOk(s) && c in s.calls && WritesHeld(s, s', c)
    requires OnlyMoved(s, s', c) && SameLocks(s.calls[c].pc, s'.calls[c].pc) && CallOk(s', s'.calls[c])
    ensures CallsOk(s')
  {
    forall n | Holds(s.calls[c].pc, n)
      ensures Owns(s, n)
    {
      HeldIsLocked(s, s.calls[c], n);
    }
    WriteRely(s, s', c);
    Frame(s, s', c);
  }

  // A call that has not committed may commit.
  lemma CommitTrace(s: State, s': State, c: CallId, res: Result)
    requires TraceOk(s) && c in s.calls && OnlyMoved(s, s', c) && s'.calls[c].op == s.calls[c].op
    requires Undecided(s.calls[c].pc)
    requires s'.calls[c].pc == Return(res) || (s'.calls[c].pc.LeafUnlock? && res == Unit)
    requires s'.trace == s.trace + [Commit(c, s.calls[c].op, res)]
    requires Legal(Replay(s.trace), s.calls[c].op, res)
    ensures TraceOk(s')
  {
    var e := Commit(c, s.calls[c].op, res);
    assert PhaseOk(s.trace, c, s.calls[c]);
    assert e in s'.trace && Invoke(c, s.calls[c].op) in s'.trace;
    assert !Responded(s'.trace, c) by {
      assert !Responded(s.trace, c);
    }
    TraceGrows(s, s', c, e);
  }

  /** The linearization point of an insert. */
  lemma WriteStep(s: State, c: CallId, n: NodeId)
    requires Inv(s) && c in s.calls && s.calls[c].pc == LeafWrite(n)
    requires n in s.cells && s.cells[n].node.Leaf? && s.calls[c].op.Insert?
    ensures Inv(WriteLeaf(s, c, n))
    ensures Replay(WriteLeaf(s, c, n).trace) == Replay(s.trace)[s.calls[c].op.k := s.calls[c].op.v]
  {
    var s', op := WriteLeaf(s, c, n), s.calls[c].op;
    assert CallOk(s, s.calls[c]);
    WriteCalls(s, s', c);
    CommitTrace(s, s', c, Unit);
    ReplayAppend(s.trace, Commit(c, op, Unit));
    TreeWrite(s, s', Replay(s.trace), n, op.k, op.v);
  }

  lemma SplitUnderWrites(s: State, c: CallId, p: NodeId, n: NodeId, right: NodeId)
    requires c in s.calls && CallOk(s, s.calls[c]) && s.calls[c].pc == SplitDo(Some(p), n)
    requires right !in s.cells && p != n && p in s.cells && n in s.cells && Splittable(s.cells[n].node)
    requires s.cells[p].node.Inner? && |s.cells[p].node.children| == |s.cells[p].node.keys| + 1
    ensures var s' := SplitUnder(s, c, p, n, right);
            && WritesHeld(s, s', c) && OnlyMoved(s, s', c)
            && SameLocks(s.calls[c].pc, s'.calls[c].pc) && CallOk(s', s'.calls[c])
  {
  }

  lemma SplitUnderTree(s: State, c: CallId, p: NodeId, n: NodeId, right: NodeId, m: map<Key, Value>)
    requires TreeOk(s, m) && c in s.calls && CallOk(s, s.calls[c])
    requires s.calls[c].pc == SplitDo(Some(p), n) && right !in s.cells
    requires p in s.cells && n in s.cells && Splittable(s.cells[n].node)
    requires s.cells[p].node.Inner? && |s.cells[p].node.children| == |s.cells[p].node.keys| + 1
    ensures p != n && TreeOk(SplitUnder(s, c, p, n, right), m)
  {
    Descend(s, m, p, s.calls[c].op.k, n);
    TreeSplitUnder(s, SplitUnder(s, c, p, n, right), m, p, n, right,
                   LowerBound(s.cells[p].node.keys, s.calls[c].op.k));
  }

  lemma SplitUnderStep(s: State, c: CallId, p: NodeId, n: NodeId, right: NodeId)
    requires Inv(s) && c in s.calls && s.calls[c].pc == SplitDo(Some(p), n) && right !in s.cells
    requires p in s.cells && n in s.cells && Splittable(s.cells[n].node)
    requires s.cells[p].node.Inner? && |s.cells[p].node.children| == |s.cells[p].node.keys| + 1
    ensures Inv(SplitUnder(s, c, p, n, right))
  {
    SplitUnderTree(s, c, p, n, right, Replay(s.trace));
    SplitUnderWrites(s, c, p, n, right);
    WriteCalls(s, SplitUnder(s, c, p, n, right), c);
    TraceSame(s, SplitUnder(s, c, p, n, right), c);
  }

  lemma SplitTopWrites(s: State, c: CallId, n: NodeId, right: NodeId, top: NodeId)
    requires c in s.calls && CallOk(s, s.calls[c]) && s.calls[c].pc == SplitDo(None, n)
    requires right !in s.cells && top !in s.cells && right != top
    requires n in s.cells && Splittable(s.cells[n].node)
    ensures var s' := SplitTop(s, c, n, right, top);
            && WritesHeld(s, s', c) && OnlyMoved(s, s', c)
            && SameLocks(s.calls[c].pc, s'.calls[c].pc) && CallOk(s', s'.calls[c])
  {
  }

  lemma SplitTopStep(s: State, c: CallId, n: NodeId, right: NodeId, top: NodeId)
    requires Inv(s) && c in s.calls && s.calls[c].pc == SplitDo(None, n)
    requires right !in s.cells && top !in s.cells && right != top
    requires n in s.cells && Splittable(s.cells[n].node)
    ensures Inv(SplitTop(s, c, n, right, top))
  {
    var s' := SplitTop(s, c, n, right, top);
    SplitTopWrites(s, c, n, right, top);
    WriteCalls(s, s', c);
    TreeSplitTop(s, s', Replay(s.trace), n, right, top);
    TraceSame(s, s', c);
  }

  // ---------------------------------------------------------------- reads

  lemma StoredThere(data: seq<Entry>, span: Span, m: map<Key, Value>, i: nat)
    requires LeafOk(data, span) && Agrees(data, span, m) && i < |data|
    ensures data[i].key in m && m[data[i].key] == data[i].val
  {
    LeafGetIff(data, data[i].key);
    assert LeafGet(data, data[i].key) == MapGet(m, data[i].key);
  }

  // A window of a leaf that starts at the lower bound of k.
  ghost predicate Window(data: seq<Entry>, k: Key, pos: nat, n: nat) {
    && pos + n <= |data|
    && (forall i :: 0 <= i < pos ==> data[i].key < k)
    && (pos < |data| ==> k <= data[pos].key)
  }

  lemma WindowKeys(data: seq<Entry>, span: Span, m: map<Key, Value>, k: Key, pos: nat, n: nat)
    requires LeafOk(data, span) && Agrees(data, span, m) && Covers(span, k) && Window(data, k, pos, n)
    ensures forall i :: pos <= i < pos + n ==> k <= data[i].key && data[i].key in m && m[data[i].key] == data[i].val
    ensures n > 0 ==> forall x :: x in m && k <= x <= data[pos + n - 1].key ==> x in KeysOf(data)[pos..pos + n]
  {
    var keys := KeysOf(data);
    forall i | pos <= i < pos + n
      ensures k <= data[i].key && data[i].key in m && m[data[i].key] == data[i].val
    {
      StoredThere(data, span, m, i);
      assert keys[pos] <= keys[i];
    }
    if n > 0 {
      forall x | x in m && k <= x <= data[pos + n - 1].key
        ensures x in keys[pos..pos + n]
      {
        StoredHere(data, span, m, x);
        var i :| 0 <= i < |keys| && keys[i] == x;
        assert i < pos + n by { assert keys[pos + n - 1] >= keys[i]; }
        assert keys[pos..pos + n][i - pos] == x;
      }
    }
  }

  lemma WindowIsFirst(data: seq<Entry>, m: map<Key, Value>, k: Key, pos: nat, n: nat, vals: seq<Value>)
    requires Sorted(KeysOf(data)) && pos + n <= |data| && |vals| == n
    requires forall i :: 0 <= i < n ==> vals[i] == data[pos + i].val
    requires forall i :: pos <= i < pos + n ==> k <= data[i].key && data[i].key in m && m[data[i].key] == data[i].val
    requires n > 0 ==> forall x :: x in m && k <= x <= data[pos + n - 1].key ==> x in KeysOf(data)[pos..pos + n]
    ensures ScanKeys(m, k, vals, KeysOf(data)[pos..pos + n])
  {
    var keys := KeysOf(data);
    var got := keys[pos..pos + n];
    assert forall i :: 0 <= i < n ==> got[i] == keys[pos + i] == data[pos + i].key;
    forall i, j | 0 <= i < j < |got|
      ensures got[i] < got[j]
    {
      assert keys[pos + i] < keys[pos + j];
    }
  }

  lemma StoredHere(data: seq<Entry>, span: Span, m: map<Key, Value>, x: Key)
    requires LeafOk(data, span) && Agrees(data, span, m) && Covers(span, x) && x in m
    ensures x in KeysOf(data)
  {
    LeafGetIff(data, x);
    assert LeafGet(data, x) == MapGet(m, x);
  }

  lemma ScanEmpty(data: seq<Entry>, span: Span, m: map<Key, Value>, k: Key)
    requires LeafOk(data, span) && Agrees(data, span, m) && Covers(span, k)
    requires forall i :: 0 <= i < |data| ==> data[i].key < k
    ensures forall x :: x in m ==> x < k
  {
    forall x | x in m
      ensures x < k
    {
      if k <= x {
        StoredHere(data, span, m, x);
      }
    }
  }

  lemma ScanWindow(data: seq<Entry>, k: Key, range: nat) returns (pos: nat)
    ensures var vals := LeafScan(data, k, range);
            && Window(data, k, pos, |vals|) && |vals| <= range
            && (forall i :: 0 <= i < |vals| ==> vals[i] == data[pos + i].val)
            && (vals == [] && range > 0 ==> pos == |data|)
  {
    pos := LowerBound(KeysOf(data), k);
  }

  lemma WindowScan(data: seq<Entry>, span: Span, m: map<Key, Value>, k: Key, pos: nat, vals: seq<Value>)
    requires LeafOk(data, span) && Agrees(data, span, m) && Covers(span, k) && Window(data, k, pos, |vals|)
    requires forall i :: 0 <= i < |vals| ==> vals[i] == data[pos + i].val
    ensures exists keys :: ScanKeys(m, k, vals, keys)
  {
    WindowKeys(data, span, m, k, pos, |vals|);
    WindowIsFirst(data, m, k, pos, |vals|, vals);
  }

  lemma LeafScanOk(data: seq<Entry>, span: Span, m: map<Key, Value>, k: Key, range: nat)
    requires LeafOk(data, span) && Agrees(data, span, m) && Covers(span, k)
    ensures ScanOk(m, k, range, LeafScan(data, k, range))
  {
    var vals := LeafScan(data, k, range);
    var pos := ScanWindow(data, k, range);
    WindowScan(data, span, m, k, pos, vals);
    if vals == [] && range > 0 {
      ScanEmpty(data, span, m, k);
    }
  }

  /** The linearization point of a lookup or scan: the final version check. */
  lemma ReadLegal(s: State, m: map<Key, Value>, call: Call, r: Ref, res: Result)
    requires TreeOk(s, m) && CallOk(s, call) && call.pc == ReadCheckNode(r, res)
    requires Current(s, r)
    ensures Legal(m, call.op, res)
  {
    var op := call.op;
    assert CellOk(s.cells, r.id);
    var data, span := s.cells[r.id].node.data, s.cells[r.id].span;
    assert Agrees(data, span, m) && Covers(span, op.k);
    if op.Scan? {
      LeafScanOk(data, span, m, op.k, op.range);
    } else {
      assert LeafGet(data, op.k) == MapGet(m, op.k);
    }
  }

  // Steps that only log and move.
  lemma LoggedCalls(s: State, s': State, c: CallId)
    requires CallsOk(s) && c in s.calls && OnlyMoved(s, s', c) && SameLocks(s.calls[c].pc, s'.calls[c].pc)
    requires s'.cells == s.cells && s'.root == s.root && CallOk(s', s'.calls[c])
    ensures CallsOk(s')
  {
    Frame(s, s', c);
  }

  lemma ReadStep(s: State, c: CallId, r: Ref, res: Result)
    requires Inv(s) && c in s.calls && s.calls[c].pc == ReadCheckNode(r, res)
    requires r.id in s.cells && Current(s, r)
    ensures Inv(SetPc(Log(s, Commit(c, s.calls[c].op, res)), c, Return(res)))
  {
    var e := Commit(c, s.calls[c].op, res);
    var s' := SetPc(Log(s, e), c, Return(res));
    ReadLegal(s, Replay(s.trace), s.calls[c], r, res);
    LoggedCalls(s, s', c);
    CommitTrace(s, s', c, res);
    ReplayAppend(s.trace, e);
    assert CallOk(s, s.calls[c]) && !s.calls[c].op.Insert?;
    TreeLogged(s, s', Replay(s.trace));
  }

  lemma TreeLogged(s: State, s': State, m: map<Key, Value>)
    requires TreeOk(s, m) && s'.root == s.root && s'.cells == s.cells
    ensures TreeOk(s', m)
  {
  }

  lemma RespondStep(s: State, c: CallId, res: Result)
    requires Inv(s) && c in s.calls && s.calls[c].pc == Return(res)
    ensures Inv(SetPc(Log(s, Respond(c, res)), c, Done(res)))
  {
    var e := Respond(c, res);
    var s' := SetPc(Log(s, e), c, Done(res));
    LoggedCalls(s, s', c);
    RespondTrace(s, s', c, res);
    ReplayAppend(s.trace, e);
    TreeLogged(s, s', Replay(s.trace));
  }

  lemma RespondTrace(s: State, s': State, c: CallId, res: Result)
    requires TraceOk(s) && c in s.calls && OnlyMoved(s, s', c) && s'.calls[c].op == s.calls[c].op
    requires s.calls[c].pc == Return(res) && s'.calls[c].pc == Done(res)
    requires s'.trace == s.trace + [Respond(c, res)]
    ensures TraceOk(s')
  {
    assert PhaseOk(s.trace, c, s.calls[c]);
    TraceGrows(s, s', c, Respond(c, res));
  }

  lemma BeginStep(s: State, c: CallId, op: Op)
    requires Inv(s) && c !in s.calls
    ensures Inv(Begin(s, c, op))
  {
    var s', e := Begin(s, c, op), Invoke(c, op);
    BeginCalls(s, c, op);
    assert !Committed(s'.trace, c) && !Responded(s'.trace, c);
    TraceGrows(s, s', c, e);
    ReplayAppend(s.trace, e);
    TreeLogged(s, s', Replay(s.trace));
  }

  lemma BeginCalls(s: State, c: CallId, op: Op)
    requires CallsOk(s) && c !in s.calls
    ensures CallsOk(Begin(s, c, op))
  {
    var s' := Begin(s, c, op);
    forall d | d in s.calls
      ensures CallOk(s', s.calls[d])
    {
      Stable(s, s', s.calls[d]);
    }
    forall n | n in s'.cells && Locked(s'.cells[n].word)
      ensures exists d :: d in s'.calls && Holds(s'.calls[d].pc, n)
    {
      var d :| d in s.calls && Holds(s.calls[d].pc, n);
      assert d in s'.calls && s'.calls[d] == s.calls[d];
    }
  }

  // ---------------------------------------------------------------- one call, one step

  predicate Moves(pc: Pc) {
    Enters(pc) || Validates(pc) || pc.ReadChild? || pc.LockChild? || pc.SplitRoot?
  }

  predicate Enters(pc: Pc) {
    pc.Start? || pc.RootLoaded? || pc.RootRead? || pc.AtNode?
  }

  predicate Validates(pc: Pc) {
    pc.CheckParent? || pc.CheckInner? || pc.LeafRecheck? || pc.ReadCheckParent?
  }

  // What a reading step leaves behind: the call at a new point where it knows what it needs.
  ghost predicate Knows(s: State, s': State, c: CallId) {
    && c in s.calls && c in s'.calls
    && var pc := s'.calls[c].pc;
       && s' == SetPc(s, c, pc)
       && Undecided(pc) && SameLocks(s.calls[c].pc, pc)
       && CallOk(s, s.calls[c].(pc := pc))
  }

  lemma EnterKnows(s: State, c: CallId, o: Obs)
    requires Enabled(s, c, o) && CallOk(s, s.calls[c]) && Enters(s.calls[c].pc)
    requires s.root in s.cells && s.cells[s.root].span.lo == None && s.cells[s.root].span.hi == None
    ensures Knows(s, After(s, c, o), c)
  {
  }

  lemma ChildKnows(s: State, c: CallId, o: Obs)
    requires Enabled(s, c, o) && CallOk(s, s.calls[c])
    requires var pc := s.calls[c].pc; pc.ReadChild? || pc.LockChild? || pc.SplitRoot?
    ensures Knows(s, After(s, c, o), c)
  {
  }

  // The version check of a step, and the node whose key range hangs on it.
  function Checked(pc: Pc): (Ref, NodeId)
    requires Validates(pc)
  {
    match pc
    case CheckParent(p, r) => (p, r.id)
    case CheckInner(r, child) => (r, child)
    case LeafRecheck(p, n) => (p, n)
    case ReadCheckParent(p, r, _) => (p, r.id)
  }

  ghost predicate ChildCovered(s: State, p: Ref, k: Key, child: NodeId) {
    p.id in s.cells && (Current(s, p) ==> child in s.cells && Covers(s.cells[child].span, k))
  }

  lemma CheckedChild(s: State, m: map<Key, Value>, call: Call)
    requires TreeOk(s, m) && CallOk(s, call) && Validates(call.pc)
    ensures ChildCovered(s, Checked(call.pc).0, call.op.k, Checked(call.pc).1)
  {
    var (p, child) := Checked(call.pc);
    if Current(s, p) {
      Descend(s, m, p.id, call.op.k, child);
    }
  }

  /** A passed version check is what the next step builds on. */
  lemma ValidateKnows(s: State, c: CallId, o: Obs)
    requires Enabled(s, c, o) && CallOk(s, s.calls[c]) && Validates(s.calls[c].pc)
    requires ChildCovered(s, Checked(s.calls[c].pc).0, s.calls[c].op.k, Checked(s.calls[c].pc).1)
    ensures Knows(s, After(s, c, o), c)
  {
  }

  lemma MoveStep(s: State, c: CallId, o: Obs)
    requires Inv(s) && Enabled(s, c, o) && Moves(s.calls[c].pc)
    ensures Inv(After(s, c, o))
  {
    assert CallOk(s, s.calls[c]);
    if Enters(s.calls[c].pc) {
      EnterKnows(s, c, o);
    } else if Validates(s.calls[c].pc) {
      CheckedChild(s, Replay(s.trace), s.calls[c]);
      ValidateKnows(s, c, o);
    } else {
      ChildKnows(s, c, o);
    }
    LocalStep(s, c, After(s, c, o).calls[c].pc);
  }

  predicate Upgrades(pc: Pc) {
    pc.LeafLock? || pc.SplitParent? || pc.SplitNode?
  }

  function Target(pc: Pc): Ref
    requires Upgrades(pc)
  {
    if pc.SplitParent? then pc.p else pc.r
  }

  /** Upgrades: a successful compare-and-swap turns what was current into what is owned. */
  lemma UpgradeKnows(s: State, c: CallId, o: Obs)
    requires Enabled(s, c, o) && CallOk(s, s.calls[c]) && Upgrades(s.calls[c].pc)
    requires RefOk(s, Target(s.calls[c].pc)) && Current(s, Target(s.calls[c].pc))
    ensures c in After(s, c, o).calls
    ensures var pc, r := After(s, c, o).calls[c].pc, Target(s.calls[c].pc);
            && After(s, c, o) == SetPc(AddTwo(s, r.id), c, pc)
            && Undecided(pc)
            && (forall b :: Holds(pc, b) <==> b == r.id || Holds(s.calls[c].pc, b))
            && CallOk(After(s, c, o), s.calls[c].(pc := pc))
  {
    WordParity(s.cells[Target(s.calls[c].pc).id].word);
  }

  lemma UpgradesStep(s: State, c: CallId, o: Obs)
    requires Inv(s) && Enabled(s, c, o) && Upgrades(s.calls[c].pc)
    ensures Inv(After(s, c, o))
  {
    var r, pc := Target(s.calls[c].pc), After(s, c, o).calls[c].pc;
    assert CallOk(s, s.calls[c]);
    if Current(s, r) {
      UpgradeKnows(s, c, o);
      UpgradeStep(s, c, r, pc);
    } else {
      LocalStep(s, c, pc);
    }
  }

  lemma UnlockKnows(s: State, c: CallId, o: Obs)
    requires Enabled(s, c, o) && CallOk(s, s.calls[c]) && PhaseOk(s.trace, c, s.calls[c])
    requires var pc := s.calls[c].pc; pc.LeafUnlock? || pc.SplitUnlock? || pc.Release?
    ensures c in After(s, c, o).calls
    ensures var n, pc := s.calls[c].pc.node, After(s, c, o).calls[c].pc;
            && After(s, c, o) == SetPc(AddTwo(s, n), c, pc)
            && Owns(s, n) && Holds(s.calls[c].pc, n)
            && (forall b :: Holds(pc, b) <==> b != n && Holds(s.calls[c].pc, b))
            && CallOk(After(s, c, o), s.calls[c].(pc := pc))
            && PhaseOk(s.trace, c, s.calls[c].(pc := pc))
  {
  }

  lemma UnlockStep(s: State, c: CallId, o: Obs)
    requires Inv(s) && Enabled(s, c, o)
    requires var pc := s.calls[c].pc; pc.LeafUnlock? || pc.SplitUnlock? || pc.Release?
    ensures Inv(After(s, c, o))
  {
    UnlockKnows(s, c, o);
    WordStep(s, c, s.calls[c].pc.node, After(s, c, o).calls[c].pc);
  }

  /** Any step of any call, whatever it observes, keeps the invariant. */
  lemma StepKeepsInv(s: State, c: CallId, o: Obs)
    requires Inv(s) && Enabled(s, c, o)
    ensures Inv(After(s, c, o))
  {
    match s.calls[c].pc
    case LeafWrite(n) => WriteStep(s, c, n);
    case SplitDo(held, n) =>
      if held.Some? { SplitUnderStep(s, c, held.value, n, o.right); } else { SplitTopStep(s, c, n, o.right, o.top); }
    case ReadCheckNode(r, res) =>
      if Current(s, r) { ReadStep(s, c, r, res); } else { LocalStep(s, c, Start); }
    case Return(res) => RespondStep(s, c, res);
    case LeafLock(_, _) => UpgradesStep(s, c, o);
    case SplitParent(_, _) => UpgradesStep(s, c, o);
    case SplitNode(_, _) => UpgradesStep(s, c, o);
    case LeafUnlock(_) => UnlockStep(s, c, o);
    case SplitUnlock(_, _) => UnlockStep(s, c, o);
    case Release(_) => UnlockStep(s, c, o);
    case _ => MoveStep(s, c, o);
  }
}
