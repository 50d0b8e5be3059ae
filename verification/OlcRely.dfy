/** Rely-guarantee: no step of one call spoils what another call knows. */
module OlcRely {
  import opened Entries
  import opened OlcProtocol
  import opened OlcInvariant

  // What a call at `pc` may count on while others take a step from s to s'.
  ghost predicate Rely(s: State, s': State, pc: Pc) {
    && (forall n :: n in s.cells ==> RelyCell(s, s', pc, n))
    && (Holds(pc, s.root) ==> s'.root == s.root)
  }

  ghost predicate RelyCell(s: State, s': State, pc: Pc, n: NodeId)
    requires n in s.cells
  {
    && n in s'.cells
    && s.cells[n].word <= s'.cells[n].word
    && s.cells[n].node.Leaf? == s'.cells[n].node.Leaf?
    && (!Locked(s.cells[n].word) || Holds(pc, n) ==>
          s'.cells[n].node == s.cells[n].node && s'.cells[n].span == s.cells[n].span)
    && (Holds(pc, n) ==> s'.cells[n].word == s.cells[n].word)
  }

  lemma HeldIsLocked(s: State, call: Call, n: NodeId)
    requires CallOk(s, call) && Holds(call.pc, n)
    ensures Owns(s, n)
  {
  }

  /** An unlocked version pins the contents: if the word is still r.ver, nothing about it changed. */
  lemma StableRef(s: State, s': State, pc: Pc, r: Ref)
    requires Rely(s, s', pc) && RefOk(s, r)
    ensures RefOk(s', r)
    ensures Current(s', r) ==>
              && Current(s, r)
              && s'.cells[r.id].node == s.cells[r.id].node && s'.cells[r.id].span == s.cells[r.id].span
  {
    assert RelyCell(s, s', pc, r.id);
  }

  lemma StableEntered(s: State, s': State, pc: Pc, parent: Option<Ref>, r: Ref, op: Op)
    requires Rely(s, s', pc) && Entered(s, parent, r, op)
    ensures Entered(s', parent, r, op)
  {
    StableRef(s, s', pc, r);
    if parent.Some? {
      StableRef(s, s', pc, parent.value);
    }
  }

  lemma StableHeld(s: State, s': State, call: Call, n: NodeId)
    requires Rely(s, s', call.pc) && CallOk(s, call) && Holds(call.pc, n)
    ensures Owns(s', n) && s'.cells[n] == s.cells[n]
  {
    HeldIsLocked(s, call, n);
    assert RelyCell(s, s', call.pc, n);
  }

  // Program points at which a call owns at least one node.
  predicate Owning(pc: Pc) {
    pc.LeafRecheck? || pc.LeafWrite? || pc.LeafUnlock? || pc.SplitNode? || pc.SplitRoot? || pc.SplitDo?
    || pc.SplitUnlock? || pc.Release?
  }

  lemma StableOwner(s: State, s': State, call: Call)
    requires CallOk(s, call) && Rely(s, s', call.pc) && Owning(call.pc)
    ensures CallOk(s', call)
  {
    var pc := call.pc;
    match pc
    case LeafRecheck(p, n) => StableRef(s, s', pc, p); StableHeld(s, s', call, n);
    case SplitNode(held, r) =>
      StableRef(s, s', pc, r);
      if held.Some? { StableHeld(s, s', call, held.value); }
    case SplitDo(held, n) =>
      StableHeld(s, s', call, n);
      if held.Some? { StableHeld(s, s', call, held.value); }
    case SplitUnlock(held, n) =>
      StableHeld(s, s', call, n);
      if held.Some? { StableHeld(s, s', call, held.value); }
    case LeafWrite(n) => StableHeld(s, s', call, n);
    case LeafUnlock(n) => StableHeld(s, s', call, n);
    case SplitRoot(n) => StableHeld(s, s', call, n);
    case Release(n) => StableHeld(s, s', call, n);
  }

  /** Everything a call knows survives the steps of the others. */
  lemma Stable(s: State, s': State, call: Call)
    requires CallOk(s, call) && Rely(s, s', call.pc)
    ensures CallOk(s', call)
  {
    var pc := call.pc;
    if Owning(pc) {
      StableOwner(s, s', call);
      return;
    }
    match pc
    case RootLoaded(n) => assert RelyCell(s, s', pc, n);
    case RootRead(r) => StableRef(s, s', pc, r);
    case AtNode(parent, r) => StableEntered(s, s', pc, parent, r, call.op);
    case CheckParent(p, r) => StableRef(s, s', pc, p); StableRef(s, s', pc, r); assert RelyCell(s, s', pc, r.id);
    case ReadChild(r) => StableRef(s, s', pc, r); assert RelyCell(s, s', pc, r.id);
    case CheckInner(r, child) => StableRef(s, s', pc, r);
    case LockChild(r, child) => StableRef(s, s', pc, r); assert RelyCell(s, s', pc, child);
    case LeafLock(parent, r) =>
      StableEntered(s, s', pc, parent, r, call.op);
      StableRef(s, s', pc, r);
      assert RelyCell(s, s', pc, r.id);
    case SplitParent(p, r) => StableRef(s, s', pc, p); StableRef(s, s', pc, r);
    case ReadCheckParent(p, r, _) => StableRef(s, s', pc, p); StableRef(s, s', pc, r); assert RelyCell(s, s', pc, r.id);
    case ReadCheckNode(r, _) => StableRef(s, s', pc, r); assert RelyCell(s, s', pc, r.id);
    case _ =>
  }

  // Call c moved to a new program point; every other call is where it was.
  ghost predicate OnlyMoved(s: State, s': State, c: CallId) {
    && c in s'.calls
    && s'.calls == s.calls[c := s'.calls[c]]
  }

  // Locks change hands only as the words say: a node c gains was free, a node c gives up is free.
  ghost predicate LocksMove(s: State, s': State, c: CallId)
    requires c in s.calls && c in s'.calls
  {
    && (forall n :: Holds(s'.calls[c].pc, n) ==> Holds(s.calls[c].pc, n) || (n in s.cells && !Locked(s.cells[n].word)))
    && (forall n :: n in s'.cells && Locked(s'.cells[n].word) ==>
          Holds(s'.calls[c].pc, n) || (n in s.cells && Locked(s.cells[n].word) && !Holds(s.calls[c].pc, n)))
  }

  /** The frame rule of the step system. */
  lemma Frame(s: State, s': State, c: CallId)
    requires CallsOk(s) && c in s.calls
    requires OnlyMoved(s, s', c) && LocksMove(s, s', c) && CallOk(s', s'.calls[c])
    requires forall d :: d in s.calls && d != c ==> Rely(s, s', s.calls[d].pc)
    ensures CallsOk(s')
  {
    forall d | d in s'.calls
      ensures CallOk(s', s'.calls[d])
    {
      if d != c {
        Stable(s, s', s.calls[d]);
      }
    }
    forall d, e, n | d in s'.calls && e in s'.calls && Holds(s'.calls[d].pc, n) && Holds(s'.calls[e].pc, n)
      ensures d == e
    {
      if d != c {
        HeldIsLocked(s, s.calls[d], n);
      }
      if e != c {
        HeldIsLocked(s, s.calls[e], n);
      }
    }
    forall n | n in s'.cells && Locked(s'.cells[n].word)
      ensures exists d :: d in s'.calls && Holds(s'.calls[d].pc, n)
    {
      if !Holds(s'.calls[c].pc, n) {
        var d :| d in s.calls && Holds(s.calls[d].pc, n);
        assert d != c && s'.calls[d] == s.calls[d];
      }
    }
  }
}
