/** The promises of the leaf list, over every interleaving of link_split and unlink. */
module LeafLinkTheorems {
  import opened Entries
  import opened LeafLink

  lemma QuietOk(s: State, o: OpId)
    requires ListOk(s) && SeqOk(s) && Enabled(s, o) && OpOk(s, s.ops[o]) && IsQuiet(s.ops[o])
    ensures var s' := After(s, o); Quiet(s, s', o) && OpOk(s', s'.ops[o]) && MarksMove(s, s', o)
  {
    match s.ops[o]
    case SplitStart(_, _) => SplitQuiet(s, o);
    case SplitLoad(_, _) => SplitQuiet(s, o);
    case SplitCas(_, _, _) => SplitQuiet(s, o);
    case SplitNext(_, _, _) => SplitQuiet(s, o);
    case UnlinkLoad(_) => UnlinkQuiet(s, o);
    case UnlinkCas(_, _) => UnlinkQuiet(s, o);
    case UnlinkPrev(_, _) => PrevQuiet(s, o);
    case UnlinkGrab(_, _, _) => GrabQuiet(s, o);
  }

  lemma QuietKeepsInv(s: State, o: OpId)
    requires Inv(s) && Enabled(s, o) && IsQuiet(s.ops[o])
    ensures Inv(After(s, o))
  {
    QuietOk(s, o);
    QuietStep(s, After(s, o), o);
  }

  lemma EditRelies(s: State, o: OpId)
    requires ListOk(s) && OwnersOk(s) && OpsOk(s) && Enabled(s, o) && !IsQuiet(s.ops[o])
    ensures forall q :: q in s.ops && q != o ==> Rely(s, After(s, o), s.ops[q])
  {
    OthersApart(s, o);
    forall q | q in s.ops && q != o
      ensures Rely(s, After(s, o), s.ops[q])
    {
      assert Apart(s, o, q);
      match s.ops[o]
      case SplitPrev(_, _, _) => LinkRely(s, o, q);
      case SplitPublish(_, _, next) => if next.Some? { PublishRely(s, o, q); } else { AppendRely(s, o, q); }
      case UnlinkBack(_, _, _) => UnlinkRely(s, o, q);
      case UnlinkDrop(_, next, _) => if next.Some? { DropRely(s, o, q); } else { ChopRely(s, o, q); }
    }
  }

  lemma EditOk(s: State, o: OpId)
    requires ListOk(s) && SeqOk(s) && Enabled(s, o) && OpOk(s, s.ops[o]) && !IsQuiet(s.ops[o])
    ensures var s' := After(s, o); OnlyMoved(s, s', o) && ListOk(s') && OpOk(s', s'.ops[o]) && MarksMove(s, s', o)
  {
    match s.ops[o]
    case SplitPrev(_, _, _) => LinkOk(s, o);
    case SplitPublish(_, _, next) => if next.Some? { PublishOk(s, o); } else { AppendOk(s, o); }
    case UnlinkBack(_, _, _) => UnlinkOk(s, o);
    case UnlinkDrop(_, next, _) => if next.Some? { DropOk(s, o); } else { ChopOk(s, o); }
  }

  lemma EditSeq(s: State, o: OpId)
    requires SeqOk(s) && Enabled(s, o) && OpOk(s, s.ops[o]) && !IsQuiet(s.ops[o])
    ensures SeqOk(After(s, o))
  {
    match s.ops[o]
    case SplitPrev(n, nr, _) => InsertChain(s.list, s.succ, n, nr);
    case SplitPublish(n, nr, next) => if next.None? { InsertChain(s.list, s.succ, n, nr); }
    case UnlinkBack(n, _, p) => RemoveChain(s.list, s.succ, n, p);
    case UnlinkDrop(n, next, p) => if next.None? { RemoveChain(s.list, s.succ, n, p); }
  }

  lemma EditDetours(s: State, o: OpId)
    requires DetoursOk(s) && OwnersOk(s) && Enabled(s, o) && OpOk(s, s.ops[o]) && !IsQuiet(s.ops[o])
    ensures DetoursOk(After(s, o))
  {
    var s', op := After(s, o), s.ops[o];
    if op.SplitPublish? {
      forall q | q in s.ops && s.ops[q].SplitPublish? && s.ops[q].nr == op.nr
        ensures q == o
      {
        assert op.nr in Busy(op) && op.nr in Busy(s.ops[q]);
      }
    }
    FrameDetours(s, s', o);
  }

  lemma EditKeepsInv(s: State, o: OpId)
    requires Inv(s) && Enabled(s, o) && !IsQuiet(s.ops[o])
    ensures Inv(After(s, o))
  {
    EditRelies(s, o);
    EditOk(s, o);
    EditSeq(s, o);
    EditDetours(s, o);
    FrameOps(s, After(s, o), o);
    FrameOwners(s, After(s, o), o);
  }

  // ---------------------------------------------------------------- new calls

  // A new operation joins; at most a fresh node is added.
  ghost predicate Joins(s: State, s': State, o: OpId, op: Op) {
    && o !in s.ops && s'.ops == s.ops[o := op]
    && s'.head == s.head && s'.list == s.list && s'.succ == s.succ && s'.dead == s.dead && s'.detour == s.detour
    && s'.prev == s.prev
    && (forall a :: a in s.next ==> a in s'.next && s'.next[a] == s.next[a])
    && (forall a :: !Owns(op, a))
    && (forall a, q :: q in s.ops && a in Busy(op) ==> a !in Busy(s.ops[q]))
  }

  lemma JoinRely(s: State, s': State, o: OpId, op: Op, q: OpId)
    requires ListOk(s) && Joins(s, s', o, op) && q in s.ops && OpOk(s, s.ops[q])
    ensures Rely(s, s', s.ops[q])
  {
    var w := s.ops[q];
    if w.SplitPublish? && w.next.Some? && w.nr in s.detour {
      LeadsKept(s.next, s'.next, w.next, s.detour[w.nr], Follow(s, w.nr));
    }
  }

  lemma JoinOps(s: State, s': State, o: OpId, op: Op)
    requires ListOk(s) && OpsOk(s) && Joins(s, s', o, op) && OpOk(s', op)
    ensures OpsOk(s')
  {
    forall q | q in s'.ops
      ensures OpOk(s', s'.ops[q])
    {
      if q != o {
        JoinRely(s, s', o, op, q);
        Stable(s, s', s.ops[q]);
      }
    }
  }

  lemma JoinOwners(s: State, s': State, o: OpId, op: Op)
    requires OwnersOk(s) && Joins(s, s', o, op)
    requires forall a :: a in s.succ ==> a in s.next
    ensures OwnersOk(s')
  {
    forall a | a in s'.succ && a in s'.next && Marked(s'.next[a])
      ensures exists q :: q in s'.ops && Owns(s'.ops[q], a)
    {
      var q :| q in s.ops && Owns(s.ops[q], a);
      assert s'.ops[q] == s.ops[q];
    }
  }

  lemma JoinKeepsInv(s: State, s': State, o: OpId, op: Op)
    requires Inv(s) && Joins(s, s', o, op) && OpOk(s', op)
    ensures Inv(s')
  {
    JoinOps(s, s', o, op);
    forall a | a in s.succ
      ensures a in s.next
    {
      assert NodeOk(s, a);
    }
    JoinOwners(s, s', o, op);
    JoinList(s, s', o, op);
    JoinDetours(s, s', o, op);
  }

  lemma JoinList(s: State, s': State, o: OpId, op: Op)
    requires Inv(s) && Joins(s, s', o, op)
    ensures ListOk(s')
  {
    forall a | a in s'.succ
      ensures NodeOk(s', a)
    {
      assert NodeOk(s, a);
    }
  }

  lemma JoinDetours(s: State, s': State, o: OpId, op: Op)
    requires Inv(s) && Joins(s, s', o, op)
    ensures DetoursOk(s')
  {
    forall nr | nr in s'.detour
      ensures exists q :: q in s'.ops && s'.ops[q].SplitPublish? && s'.ops[q].nr == nr && s'.ops[q].next.Some?
    {
      var q :| q in s.ops && s.ops[q].SplitPublish? && s.ops[q].nr == nr && s.ops[q].next.Some?;
      assert s'.ops[q] == s.ops[q];
    }
  }

  lemma BusyAllocated(s: State, q: OpId, a: Id)
    requires q in s.ops && OpOk(s, s.ops[q]) && a in Busy(s.ops[q])
    ensures a in s.next
  {
  }

  lemma CallKeepsInv(s: State, m: Move, s': State)
    requires Inv(s) && NextBy(s, m, s') && !m.Advance?
    ensures Inv(s')
  {
    forall a | a in s.succ
      ensures a in s.next && a !in s.dead
    {
      assert NodeOk(s, a);
    }
    forall q, a | q in s.ops && a in Busy(s.ops[q])
      ensures a in s.next
    {
      BusyAllocated(s, q, a);
    }
    match m
    case CallSplit(o, n, nr) =>
      JoinKeepsInv(s, s', o, SplitStart(n, nr));
    case CallUnlink(o, n) => JoinKeepsInv(s, s', o, UnlinkLoad(n));
  }

  // ---------------------------------------------------------------- runs

  lemma InitInv(s: State)
    requires Init(s)
    ensures Inv(s)
  {
    assert NodeOk(s, s.head);
    assert Link(s.list, s.succ, 0);
  }

  /** The invariant holds in every state of every run. */
  lemma {:induction false} RunInv(states: seq<State>, moves: seq<Move>, i: nat)
    requires Run(states, moves) && i < |states|
    ensures Inv(states[i])
  {
    if i == 0 {
      InitInv(states[0]);
    } else {
      RunInv(states, moves, i - 1);
      var s, m := states[i - 1], moves[i - 1];
      assert NextBy(s, m, states[i]);
      if m.Advance? {
        if IsQuiet(s.ops[m.o]) { QuietKeepsInv(s, m.o); } else { EditKeepsInv(s, m.o); }
      } else {
        CallKeepsInv(s, m, states[i]);
      }
    }
  }

  /** No operation ever follows a pointer that is not a node. */
  lemma NeverStuck(states: seq<State>, moves: seq<Move>, i: nat, o: OpId)
    requires Run(states, moves) && i < |states| && o in states[i].ops && !states[i].ops[o].Finished?
    ensures Enabled(states[i], o)
  {
    RunInv(states, moves, i);
    var s := states[i];
    assert OpOk(s, s.ops[o]);
    if s.ops[o].UnlinkPrev? {
      PrevListed(s, s.ops[o].n);
    }
    if s.ops[o].SplitPrev? || s.ops[o].UnlinkBack? {
      assert NodeOk(s, s.ops[o].n);
    }
    if s.ops[o].UnlinkGrab? && s.ops[o].p in s.succ {
      assert NodeOk(s, s.ops[o].p);
    }
  }

  // Both pointers at position j of the list are right.
  ghost predicate Settled(s: State, j: nat)
    requires j < |s.list|
  {
    && s.list[j] in s.next
    && s.next[s.list[j]] == (if j + 1 < |s.list| then To(s.list[j + 1], false) else Null)
    && (j + 1 < |s.list| ==> s.list[j + 1] in s.prev && s.prev[s.list[j + 1]] == s.list[j])
  }

  /** Once all calls have returned, next holds exactly the list and prev is its mirror. */
  lemma AtRest(states: seq<State>, moves: seq<Move>, i: nat)
    requires Run(states, moves) && i < |states|
    requires forall o :: o in states[i].ops ==> states[i].ops[o].Finished?
    ensures var s := states[i];
            && s.list != [] && s.list[0] == s.head && Distinct(s.list)
            && forall j {:trigger Settled(s, j)} :: 0 <= j < |s.list| ==> Settled(s, j)
  {
    RunInv(states, moves, i);
    var s := states[i];
    forall j {:trigger Settled(s, j)} | 0 <= j < |s.list|
      ensures Settled(s, j)
    {
      assert Link(s.list, s.succ, j) && NodeOk(s, s.list[j]);
    }
  }

  // ---------------------------------------------------------------- one effect per call

  predicate Effective(op: Op) {
    op.Finished? || (op.SplitPublish? && op.next.Some?) || (op.UnlinkDrop? && op.next.Some?)
  }

  // What a call is meant to do to the list.
  function Edit(list: seq<Id>, op: Op): seq<Id>
    requires !op.Finished? && op.n in list
  {
    if op.SplitStart? || op.SplitLoad? || op.SplitCas? || op.SplitNext? || op.SplitPrev? || op.SplitPublish?
    then InsertAfter(list, op.n, op.nr)
    else Remove(list, op.n)
  }

  /** Each call edits the list exactly once: link_split puts the new node to the right of its node,
      unlink takes its node out, and no other step changes the list. A call starts out not effective,
      ends effective, and never goes back. */
  lemma EachCallEditsOnce(s: State, o: OpId)
    requires Enabled(s, o)
    ensures o in After(s, o).ops
    ensures Effective(s.ops[o]) ==> Effective(After(s, o).ops[o])
    ensures Effective(s.ops[o]) == Effective(After(s, o).ops[o]) ==> After(s, o).list == s.list
    ensures Effective(s.ops[o]) != Effective(After(s, o).ops[o]) ==>
              s.ops[o].n in s.list && After(s, o).list == Edit(s.list, s.ops[o])
  {
    match s.ops[o]
    case SplitStart(_, _) => SplitEdits(s, o);
    case SplitLoad(_, _) => SplitEdits(s, o);
    case SplitCas(_, _, _) => SplitEdits(s, o);
    case SplitNext(_, _, _) => SplitEdits(s, o);
    case SplitPrev(_, _, _) => SplitEdits(s, o);
    case SplitPublish(_, _, _) => SplitEdits(s, o);
    case UnlinkLoad(_) => UnlinkEdits(s, o);
    case UnlinkCas(_, _) => UnlinkEdits(s, o);
    case UnlinkPrev(_, _) => UnlinkEdits(s, o);
    case UnlinkGrab(_, _, _) => UnlinkEdits(s, o);
    case UnlinkBack(_, _, _) => UnlinkEdits(s, o);
    case UnlinkDrop(_, _, _) => UnlinkEdits(s, o);
  }

  ghost predicate EditsOnce(s: State, op: Op, s': State, op': Op) {
    && (Effective(op) ==> Effective(op'))
    && (Effective(op) == Effective(op') ==> s'.list == s.list)
    && (Effective(op) != Effective(op') ==> !op.Finished? && op.n in s.list && s'.list == Edit(s.list, op))
  }

  lemma SplitEdits(s: State, o: OpId)
    requires Enabled(s, o)
    requires var op := s.ops[o];
        op.SplitStart? || op.SplitLoad? || op.SplitCas? || op.SplitNext? || op.SplitPrev? || op.SplitPublish?
    ensures o in After(s, o).ops && EditsOnce(s, s.ops[o], After(s, o), After(s, o).ops[o])
  {
    if s.ops[o].SplitPublish? {
      if s.ops[o].next.None? {} else {}
    }
  }

  lemma UnlinkEdits(s: State, o: OpId)
    requires Enabled(s, o)
    requires var op := s.ops[o];
        op.UnlinkLoad? || op.UnlinkCas? || op.UnlinkPrev? || op.UnlinkGrab? || op.UnlinkBack? || op.UnlinkDrop?
    ensures o in After(s, o).ops && EditsOnce(s, s.ops[o], After(s, o), After(s, o).ops[o])
  {
    if s.ops[o].UnlinkDrop? {
      if s.ops[o].next.None? {} else {}
    }
  }

  // ---------------------------------------------------------------- walks

  lemma {:induction false} LeadsConcat(next: map<Id, Ptr>, first: Option<Id>, t: seq<Id>, mid: Option<Id>, u: seq<Id>,
                                       last: Option<Id>)
    requires Leads(next, first, t, mid) && Leads(next, mid, u, last)
    ensures Leads(next, first, t + u, last)
    decreases |t|
  {
    if t == [] {
      assert t + u == u;
    } else {
      assert (t + u)[1..] == t[1..] + u;
      LeadsConcat(next, Strip(next[t[0]]), t[1..], mid, u, last);
    }
  }

  // The next listed node a walk arrives at: a new node is met only once it is published.
  function Hop(s: State, a: Id): Option<Id> {
    var b := Follow(s, a);
    if b.Some? && b.value in s.detour then Follow(s, b.value) else b
  }

  /** From one listed node a walk arrives at the next, by way of dead nodes at most. */
  lemma HopTrail(s: State, a: Id) returns (trail: seq<Id>)
    requires Inv(s) && a in s.succ && a !in s.detour
    ensures a in s.next && Leads(s.next, Strip(s.next[a]), trail, Hop(s, a))
    ensures forall d :: d in trail ==> d in s.dead
  {
    assert NodeOk(s, a);
    trail := [];
    if !Marked(s.next[a]) {
      if Follow(s, a).Some? && Follow(s, a).value in s.detour {
        var q := PendingOwner(s, a);
      }
    } else {
      var o :| o in s.ops && Owns(s.ops[o], a);
      assert OpOk(s, s.ops[o]);
      var op := s.ops[o];
      if Follow(s, a).Some? && Follow(s, a).value in s.detour {
        var q := PendingOwner(s, a);
        assert q == o;
        trail := s.detour[op.nr];
      } else if op.UnlinkDrop? && op.next.Some? {
        trail := [op.n];
        assert Leads(s.next, Strip(s.next[op.n]), [], Hop(s, a));
      }
    }
  }

  // A node on a detour stands to the right of the node whose split is not yet published.
  lemma PendingOwner(s: State, a: Id) returns (o: OpId)
    requires Inv(s) && a in s.succ && s.succ[a].Some? && s.succ[a].value in s.detour
    ensures o in s.ops && s.ops[o].SplitPublish? && s.ops[o].next.Some?
    ensures s.ops[o].n == a && s.ops[o].nr == s.succ[a].value
    ensures a in s.next && Marked(s.next[a]) && Owns(s.ops[o], a)
    ensures a in Busy(s.ops[o]) && s.succ[a].value in Busy(s.ops[o])
  {
    var nr := s.succ[a].value;
    o :| o in s.ops && s.ops[o].SplitPublish? && s.ops[o].nr == nr && s.ops[o].next.Some?;
    assert OpOk(s, s.ops[o]);
    assert NodeOk(s, a) && NodeOk(s, s.ops[o].n);
  }

  lemma HopPublished(s: State, a: Id)
    requires Inv(s) && a in s.succ && a !in s.detour && Hop(s, a).Some?
    ensures Hop(s, a).value in s.succ && Hop(s, a).value !in s.detour
  {
    assert NodeOk(s, a);
    var b := s.succ[a].value;
    if b in s.detour {
      var o := PendingOwner(s, a);
      assert NodeOk(s, b);
      if s.succ[b].value in s.detour {
        var q := PendingOwner(s, b);
      }
    }
  }

  lemma Visited(s: State, i: nat, k: nat, step: seq<Id>, rest: seq<Id>)
    requires i < k <= |s.list| && s.list[i] in step && (forall j :: i < j < k ==> s.list[j] in s.detour)
    requires forall j :: k <= j < |s.list| && s.list[j] !in s.detour ==> s.list[j] in rest
    ensures forall j :: i <= j < |s.list| && s.list[j] !in s.detour ==> s.list[j] in step + rest
  {
  }

  /** A walk from the i-th node on meets every published node of the rest of the list. */
  lemma {:induction false} WalkFrom(s: State, i: nat) returns (w: seq<Id>)
    requires Inv(s) && i < |s.list| && s.list[i] !in s.detour
    ensures Leads(s.next, Some(s.list[i]), w, None)
    ensures forall j :: i <= j < |s.list| && s.list[j] !in s.detour ==> s.list[j] in w
    ensures forall d :: d in w ==> d in s.succ || d in s.dead
    decreases |s.list| - i
  {
    var step := StepFrom(s, i);
    var on := Hop(s, s.list[i]);
    if on.None? {
      EndsHere(s, i);
      w := step;
    } else {
      HopPublished(s, s.list[i]);
      var k := HopIndex(s, i);
      var rest := WalkFrom(s, k);
      w := step + rest;
      LeadsConcat(s.next, Some(s.list[i]), step, on, rest, None);
      Visited(s, i, k, step, rest);
    }
  }

  lemma StepFrom(s: State, i: nat) returns (step: seq<Id>)
    requires Inv(s) && i < |s.list| && s.list[i] !in s.detour
    ensures s.list[i] in step && Leads(s.next, Some(s.list[i]), step, Hop(s, s.list[i]))
    ensures forall d :: d in step ==> d in s.succ || d in s.dead
  {
    var a := s.list[i];
    assert Link(s.list, s.succ, i);
    var trail := HopTrail(s, a);
    step := [a] + trail;
    assert step[1..] == trail;
  }

  /** A walk that goes no further leaves nothing but an unpublished node behind. */
  lemma EndsHere(s: State, i: nat)
    requires Chain(s.list, s.succ) && i < |s.list| && Hop(s, s.list[i]).None?
    ensures forall j :: i < j < |s.list| ==> s.list[j] in s.detour
  {
    assert Link(s.list, s.succ, i);
    if i + 1 < |s.list| {
      assert Link(s.list, s.succ, i + 1);
    }
  }

  lemma HopIndex(s: State, i: nat) returns (k: nat)
    requires Chain(s.list, s.succ) && i < |s.list| && Hop(s, s.list[i]).Some? && Hop(s, s.list[i]).value !in s.detour
    ensures i < k < |s.list| && s.list[k] !in s.detour && Hop(s, s.list[i]) == Some(s.list[k])
    ensures forall j :: i < j < k ==> s.list[j] in s.detour
  {
    assert Link(s.list, s.succ, i);
    k := i + 1;
    if s.list[k] in s.detour {
      assert Link(s.list, s.succ, k);
      k := i + 2;
    }
  }

  /** In every state of every run a walk along the next pointers from the head, marks stripped, ends,
      meets only nodes, and reaches every node of the list whose publication is not pending. */
  lemma WalkReachesAll(states: seq<State>, moves: seq<Move>, i: nat) returns (w: seq<Id>)
    requires Run(states, moves) && i < |states|
    ensures var s := states[i];
            && Leads(s.next, Some(s.head), w, None)
            && (forall a :: a in s.list && a !in s.detour ==> a in w)
            && (forall a :: a in w ==> a in s.list || a in s.dead)
  {
    RunInv(states, moves, i);
    var s := states[i];
    HeadPublished(s);
    w := WalkFrom(s, 0);
    forall a | a in s.list && a !in s.detour
      ensures a in w
    {
      var j := Pos(s.list, a);
    }
  }

  lemma HeadPublished(s: State)
    requires Inv(s)
    ensures s.head !in s.detour
  {
    forall o | o in s.ops && s.ops[o].SplitPublish? && s.ops[o].next.Some?
      ensures s.ops[o].nr != s.head
    {
      assert OpOk(s, s.ops[o]);
      assert Link(s.list, s.succ, Pos(s.list, s.ops[o].n));
    }
  }

  // ---------------------------------------------------------------- no deadlock

  // The operation waits for another one to give up a mark.
  predicate Waits(s: State, op: Op) {
    match op
    case SplitLoad(n, _) => n in s.next && Marked(s.next[n])
    case SplitCas(n, _, _) => n in s.next && Marked(s.next[n])
    case UnlinkLoad(n) => n in s.next && Marked(s.next[n])
    case UnlinkCas(n, _) => n in s.next && Marked(s.next[n])
    case UnlinkPrev(n, _) => n in s.prev && s.prev[n] in s.next && s.next[s.prev[n]] != To(n, false)
    case UnlinkGrab(n, _, _) => n in s.prev && s.prev[n] in s.next && s.next[s.prev[n]] != To(n, false)
    case _ => false
  }

  // An edge of the list is held by its left node's operation, or by an unlink of its right node that is
  // past all waiting.
  lemma EdgeOwner(s: State, a: Id) returns (o: OpId)
    requires Inv(s) && a in s.succ && a in s.next && Marked(s.next[a])
    ensures o in s.ops && Owns(s.ops[o], a) && !s.ops[o].Finished?
    ensures a in Busy(s.ops[o]) || !Waits(s, s.ops[o])
    ensures Waits(s, s.ops[o]) ==> s.ops[o].n == a && (s.ops[o].UnlinkPrev? || s.ops[o].UnlinkGrab?)
  {
    o :| o in s.ops && Owns(s.ops[o], a);
  }

  /** Somebody can always go on: waiting only ever runs towards the head, which is never unlinked. */
  lemma {:induction false} SomeoneMoves(s: State, o: OpId) returns (q: OpId)
    requires Inv(s) && o in s.ops && !s.ops[o].Finished? && Waits(s, s.ops[o])
    ensures q in s.ops && !s.ops[q].Finished? && !Waits(s, s.ops[q])
    decreases if s.ops[o].n in s.list then Pos(s.list, s.ops[o].n) else 0
  {
    var op := s.ops[o];
    assert OpOk(s, op);
    var n := op.n;
    assert NodeOk(s, n);
    if op.UnlinkPrev? || op.UnlinkGrab? {
      PrevListed(s, n);
      var p := s.prev[n];
      assert NodeOk(s, p);
      q := EdgeOwner(s, p);
      if Waits(s, s.ops[q]) {
        var i := Pos(s.list, p);
        assert Link(s.list, s.succ, i) && Pos(s.list, n) == i + 1;
        q := SomeoneMoves(s, q);
      }
    } else {
      q := EdgeOwner(s, n);
      assert q != o;
    }
  }

  /** No deadlock: in every state of every run, if some call has not returned, then some call that has
      not returned is not waiting. */
  lemma NoDeadlock(states: seq<State>, moves: seq<Move>, i: nat, o: OpId) returns (q: OpId)
    requires Run(states, moves) && i < |states| && o in states[i].ops && !states[i].ops[o].Finished?
    ensures q in states[i].ops && !states[i].ops[q].Finished? && !Waits(states[i], states[i].ops[q])
  {
    RunInv(states, moves, i);
    q := o;
    if Waits(states[i], states[i].ops[o]) {
      q := SomeoneMoves(states[i], o);
    }
  }
}
