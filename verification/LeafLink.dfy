/** masstree's concurrent doubly linked list of leaves: `link_split` and `unlink` on distinct locked
    nodes, interleaved step by step. Setting the mark bit of a next pointer locks that edge.
    The order in which the leaves are meant to be linked is kept as `list`: a node enters or leaves it
    in the step that redirects the prev pointer of its right neighbour (or, at the end of the list, the
    next pointer of its left neighbour). */
module LeafLink {
  import opened Entries

  type Id = nat
  type OpId = nat

  datatype Ptr = Null | To(id: Id, marked: bool)

  function Strip(p: Ptr): Option<Id> {
    if p.Null? then None else Some(p.id)
  }

  function Plain(next: Option<Id>): Ptr {
    if next.None? then Null else To(next.value, false)
  }

  predicate Marked(p: Ptr) { p.To? && p.marked }

  datatype Op =
    | SplitStart(n: Id, nr: Id)                              // nr->prev_ = n
    | SplitLoad(n: Id, nr: Id)                               // lock_next(n): load
    | SplitCas(n: Id, nr: Id, x: Id)                         // lock_next(n): compare and swap
    | SplitNext(n: Id, nr: Id, next: Option<Id>)             // nr->next_ = next
    | SplitPrev(n: Id, nr: Id, x: Id)                        // next->prev_ = nr
    | SplitPublish(n: Id, nr: Id, next: Option<Id>)          // n->next_ = nr
    | UnlinkLoad(n: Id)                                      // lock_next(n): load
    | UnlinkCas(n: Id, x: Id)                                // lock_next(n): compare and swap
    | UnlinkPrev(n: Id, next: Option<Id>)                    // prev = n->prev_
    | UnlinkGrab(n: Id, next: Option<Id>, p: Id)             // compare and swap prev->next_
    | UnlinkBack(n: Id, x: Id, p: Id)                        // next->prev_ = prev
    | UnlinkDrop(n: Id, next: Option<Id>, p: Id)             // prev->next_ = next
    | Finished

  datatype State = State(
    head: Id,
    next: map<Id, Ptr>,
    prev: map<Id, Id>,
    ops: map<OpId, Op>,
    // auxiliary: the logical list and the right neighbour of each of its nodes, the nodes taken out
    // of it, and for a new node that is in the list but not yet published, the dead nodes a walk meets
    // in its place
    list: seq<Id>,
    succ: map<Id, Option<Id>>,
    dead: set<Id>,
    detour: map<Id, seq<Id>>)

  // ---------------------------------------------------------------- the logical list

  ghost predicate Distinct(s: seq<Id>) {
    forall i, j :: 0 <= i < j < |s| ==> s[i] != s[j]
  }

  /** succ is the list: its nodes are the nodes of the list, each mapped to its right neighbour. */
  ghost predicate Chain(list: seq<Id>, succ: map<Id, Option<Id>>) {
    && Distinct(list)
    && (forall a :: a in succ <==> a in list)
    && (forall i {:trigger Link(list, succ, i)} :: 0 <= i < |list| ==> Link(list, succ, i))
  }

  predicate Link(list: seq<Id>, succ: map<Id, Option<Id>>, i: nat)
    requires i < |list|
  {
    list[i] in succ && succ[list[i]] == if i + 1 < |list| then Some(list[i + 1]) else None
  }

  function Pos(list: seq<Id>, a: Id): (i: nat)
    requires a in list
    ensures i < |list| && list[i] == a
  {
    if list[0] == a then 0 else 1 + Pos(list[1..], a)
  }

  function InsertAfter(list: seq<Id>, n: Id, x: Id): seq<Id>
    requires n in list
  {
    var i := Pos(list, n);
    list[..i + 1] + [x] + list[i + 1..]
  }

  function Remove(list: seq<Id>, n: Id): seq<Id>
    requires n in list
  {
    var i := Pos(list, n);
    list[..i] + list[i + 1..]
  }

  lemma InsertElements(list: seq<Id>, i: nat, x: Id)
    requires Distinct(list) && i < |list| && x !in list
    ensures var l := list[..i + 1] + [x] + list[i + 1..];
            Distinct(l) && (forall a :: a in l <==> a in list || a == x)
  {
    var l := list[..i + 1] + [x] + list[i + 1..];
    forall a
      ensures a in l <==> a in list || a == x
    {
      assert list == list[..i + 1] + list[i + 1..];
      assert a in l <==> a in list[..i + 1] || a == x || a in list[i + 1..];
    }
    forall j, k | 0 <= j < k < |l|
      ensures l[j] != l[k]
    {
      assert j != i + 1 ==> l[j] == list[if j <= i then j else j - 1];
      assert k != i + 1 ==> l[k] == list[if k <= i then k else k - 1];
    }
  }

  lemma InsertLink(list: seq<Id>, succ: map<Id, Option<Id>>, i: nat, x: Id, j: nat)
    requires Chain(list, succ) && i < |list| && list[i] in succ && x !in list && j <= |list|
    ensures Link(list[..i + 1] + [x] + list[i + 1..], succ[list[i] := Some(x)][x := succ[list[i]]], j)
  {
    assert Link(list, succ, i);
    if j <= i {
      assert Link(list, succ, j);
    } else if j > i + 1 {
      assert Link(list, succ, j - 1);
    }
  }

  lemma InsertChain(list: seq<Id>, succ: map<Id, Option<Id>>, n: Id, x: Id)
    requires Chain(list, succ) && n in list && n in succ && x !in list
    ensures Chain(InsertAfter(list, n, x), succ[n := Some(x)][x := succ[n]])
    ensures InsertAfter(list, n, x)[0] == list[0]
  {
    var i, l, succ' := Pos(list, n), InsertAfter(list, n, x), succ[n := Some(x)][x := succ[n]];
    InsertElements(list, i, x);
    forall j | 0 <= j < |l|
      ensures Link(l, succ', j)
    {
      InsertLink(list, succ, i, x, j);
    }
  }

  lemma RemoveElements(list: seq<Id>, i: nat)
    requires Distinct(list) && i < |list|
    ensures var l := list[..i] + list[i + 1..];
            Distinct(l) && (forall a :: a in l <==> a in list && a != list[i])
  {
    var l := list[..i] + list[i + 1..];
    assert forall j :: 0 <= j < |l| ==> l[j] == list[if j < i then j else j + 1];
    forall a
      ensures a in l <==> a in list && a != list[i]
    {
      assert list == list[..i] + [list[i]] + list[i + 1..];
      assert a in l <==> a in list[..i] || a in list[i + 1..];
    }
  }

  lemma RemoveLink(list: seq<Id>, succ: map<Id, Option<Id>>, i: nat, j: nat)
    requires Chain(list, succ) && 0 < i < |list| && list[i] in succ && j + 1 < |list|
    ensures Link(list[..i] + list[i + 1..], succ[list[i - 1] := succ[list[i]]] - {list[i]}, j)
  {
    assert Link(list, succ, i);
    assert Link(list, succ, if j < i then j else j + 1);
  }

  lemma RemoveChain(list: seq<Id>, succ: map<Id, Option<Id>>, n: Id, p: Id)
    requires Chain(list, succ) && n in list && n in succ && p in list && p in succ && succ[p] == Some(n)
    ensures Chain(Remove(list, n), succ[p := succ[n]] - {n})
    ensures Remove(list, n) != [] && Remove(list, n)[0] == list[0]
  {
    var i, l, succ' := Pos(list, n), Remove(list, n), succ[p := succ[n]] - {n};
    var ip := Pos(list, p);
    assert Link(list, succ, ip);
    assert ip + 1 == i;
    RemoveElements(list, i);
    forall j | 0 <= j < |l|
      ensures Link(l, succ', j)
    {
      RemoveLink(list, succ, i, j);
    }
  }

  // ---------------------------------------------------------------- steps

  predicate Init(s: State) {
    s == State(s.head, map[s.head := Null], map[], map[], [s.head], map[s.head := None], {}, map[])
  }

  // The nodes an operation has locked by its caller: they are not the subject of another operation.
  function Busy(op: Op): set<Id> {
    match op
    case SplitStart(n, nr) => {n, nr}
    case SplitLoad(n, nr) => {n, nr}
    case SplitCas(n, nr, _) => {n, nr}
    case SplitNext(n, nr, _) => {n, nr}
    case SplitPrev(n, nr, _) => {n, nr}
    case SplitPublish(n, nr, _) => {n, nr}
    case UnlinkLoad(n) => {n}
    case UnlinkCas(n, _) => {n}
    case UnlinkPrev(n, _) => {n}
    case UnlinkGrab(n, _, _) => {n}
    case UnlinkBack(n, _, _) => {n}
    case UnlinkDrop(n, _, _) => {n}
    case Finished => {}
  }

  predicate Idle(s: State, n: Id) {
    forall o :: o in s.ops ==> n !in Busy(s.ops[o])
  }

  function SetOp(s: State, o: OpId, op: Op): State {
    s.(ops := s.ops[o := op])
  }

  function SetNext(s: State, a: Id, p: Ptr): State {
    s.(next := s.next[a := p])
  }

  function SetPrev(s: State, a: Id, b: Id): State {
    s.(prev := s.prev[a := b])
  }

  // The logical effect of linking and unlinking.
  function Enter(s: State, n: Id, nr: Id): State
    requires n in s.list && n in s.succ
  {
    s.(list := InsertAfter(s.list, n, nr), succ := s.succ[n := Some(nr)][nr := s.succ[n]])
  }

  function Leave(s: State, n: Id, p: Id): State
    requires n in s.list && n in s.succ
  {
    s.(list := Remove(s.list, n), succ := s.succ[p := s.succ[n]] - {n}, dead := s.dead + {n},
       detour := if p in s.detour then s.detour[p := s.detour[p] + [n]] else s.detour)
  }

  function Follow(s: State, a: Id): Option<Id> {
    if a in s.succ then s.succ[a] else None
  }

  /** Every pointer an operation follows in its next step is a node. */
  predicate Enabled(s: State, o: OpId) {
    o in s.ops &&
    match s.ops[o]
    case SplitStart(n, nr) => nr in s.next
    case SplitLoad(n, nr) => n in s.next
    case SplitCas(n, nr, x) => n in s.next
    case SplitNext(n, nr, next) => nr in s.next
    case SplitPrev(n, nr, x) => x in s.next && n in s.list && n in s.succ
    case SplitPublish(n, nr, next) => n in s.next && (next.None? ==> n in s.list && n in s.succ)
    case UnlinkLoad(n) => n in s.next
    case UnlinkCas(n, x) => n in s.next
    case UnlinkPrev(n, next) => n in s.prev
    case UnlinkGrab(n, next, p) => p in s.next
    case UnlinkBack(n, x, p) => x in s.next && n in s.list && n in s.succ
    case UnlinkDrop(n, next, p) => p in s.next && (next.None? ==> n in s.list && n in s.succ)
    case Finished => false
  }

  function After(s: State, o: OpId): State
    requires Enabled(s, o)
  {
    match s.ops[o]
    case SplitStart(n, nr) => SetOp(SetPrev(s, nr, n), o, SplitLoad(n, nr))
    case SplitLoad(n, nr) =>
      SetOp(s, o, if s.next[n].Null? then SplitNext(n, nr, None)
                  else if s.next[n].marked then SplitLoad(n, nr) else SplitCas(n, nr, s.next[n].id))
    case SplitCas(n, nr, x) =>
      if s.next[n] == To(x, false) then SetOp(SetNext(s, n, To(x, true)), o, SplitNext(n, nr, Some(x)))
      else SetOp(s, o, SplitLoad(n, nr))
    case SplitNext(n, nr, next) =>
      SetOp(SetNext(s, nr, Plain(next)), o,
            if next.Some? then SplitPrev(n, nr, next.value) else SplitPublish(n, nr, None))
    case SplitPrev(n, nr, x) =>
      var e := Enter(SetPrev(s, x, nr), n, nr);
      SetOp(e.(detour := e.detour[nr := []]), o, SplitPublish(n, nr, Some(x)))
    case SplitPublish(n, nr, next) =>
      var e := if next.None? then Enter(s, n, nr) else s.(detour := s.detour - {nr});
      SetOp(SetNext(e, n, To(nr, false)), o, Finished)
    case UnlinkLoad(n) =>
      SetOp(s, o, if s.next[n].Null? then UnlinkPrev(n, None)
                  else if s.next[n].marked then UnlinkLoad(n) else UnlinkCas(n, s.next[n].id))
    case UnlinkCas(n, x) =>
      if s.next[n] == To(x, false) then SetOp(SetNext(s, n, To(x, true)), o, UnlinkPrev(n, Some(x)))
      else SetOp(s, o, UnlinkLoad(n))
    case UnlinkPrev(n, next) => SetOp(s, o, UnlinkGrab(n, next, s.prev[n]))
    case UnlinkGrab(n, next, p) =>
      if s.next[p] == To(n, false) then
        SetOp(SetNext(s, p, To(n, true)), o,
              if next.Some? then UnlinkBack(n, next.value, p) else UnlinkDrop(n, None, p))
      else SetOp(s, o, UnlinkPrev(n, next))
    case UnlinkBack(n, x, p) => SetOp(Leave(SetPrev(s, x, p), n, p), o, UnlinkDrop(n, Some(x), p))
    case UnlinkDrop(n, next, p) =>
      var e := if next.None? then Leave(s, n, p) else s;
      SetOp(SetNext(e, p, Plain(next)), o, Finished)
  }

  datatype Move = CallSplit(o: OpId, n: Id, nr: Id) | CallUnlink(o: OpId, n: Id) | Advance(o: OpId)

  /** A caller holds the lock of a linked node; a new node comes from nowhere; the head stays. */
  predicate NextBy(s: State, m: Move, s': State) {
    match m
    case CallSplit(o, n, nr) =>
      && o !in s.ops && n in s.list && Idle(s, n) && nr !in s.next
      && s' == SetOp(SetNext(s, nr, Null), o, SplitStart(n, nr))
    case CallUnlink(o, n) =>
      && o !in s.ops && n in s.list && n != s.head && Idle(s, n)
      && s' == SetOp(s, o, UnlinkLoad(n))
    case Advance(o) => Enabled(s, o) && s' == After(s, o)
  }

  ghost predicate Run(states: seq<State>, moves: seq<Move>) {
    && |states| == |moves| + 1
    && Init(states[0])
    && forall i :: 0 <= i < |moves| ==> NextBy(states[i], moves[i], states[i + 1])
  }

  // ---------------------------------------------------------------- the invariant

  // The next pointers an operation has marked.
  predicate Owns(op: Op, a: Id) {
    match op
    case SplitNext(n, _, next) => a == n && next.Some?
    case SplitPrev(n, _, _) => a == n
    case SplitPublish(n, _, next) => a == n && next.Some?
    case UnlinkPrev(n, next) => a == n && next.Some?
    case UnlinkGrab(n, next, _) => a == n && next.Some?
    case UnlinkBack(n, _, p) => a == n || a == p
    case UnlinkDrop(n, next, p) => a == p || (a == n && next.Some?)
    case _ => false
  }

  // What lock_next leaves behind: the edge is marked, or the node is the last one.
  predicate EdgeHeld(s: State, n: Id, next: Option<Id>) {
    && n in s.next && n in s.succ
    && match next
       case None => s.next[n] == Null && Follow(s, n) == None
       case Some(x) => s.next[n] == To(x, true) && Follow(s, n) == Some(x)
  }

  predicate Pending(s: State, n: Id, nr: Id) {
    && n in s.succ && n in s.next && n != nr
    && nr in s.next && nr !in s.succ && nr !in s.dead
  }

  predicate Backed(s: State, n: Id, nr: Id) {
    nr in s.prev && s.prev[nr] == n
  }

  /** The dead nodes of a detour lead from `first` to `last`. */
  predicate Leads(next: map<Id, Ptr>, first: Option<Id>, trail: seq<Id>, last: Option<Id>)
    decreases |trail|
  {
    if trail == [] then first == last
    else first == Some(trail[0]) && trail[0] in next && Leads(next, Strip(next[trail[0]]), trail[1..], last)
  }

  ghost predicate OpOk(s: State, op: Op) {
    match op
    case SplitStart(n, nr) => Pending(s, n, nr)
    case SplitLoad(n, nr) => Pending(s, n, nr) && Backed(s, n, nr)
    case SplitCas(n, nr, x) => Pending(s, n, nr) && Backed(s, n, nr)
    case SplitNext(n, nr, next) => Pending(s, n, nr) && Backed(s, n, nr) && EdgeHeld(s, n, next)
    case SplitPrev(n, nr, x) =>
      Pending(s, n, nr) && Backed(s, n, nr) && EdgeHeld(s, n, Some(x)) && s.next[nr] == To(x, false)
    case SplitPublish(n, nr, None) =>
      Pending(s, n, nr) && Backed(s, n, nr) && EdgeHeld(s, n, None) && s.next[nr] == Null
    case SplitPublish(n, nr, Some(x)) =>
      && n in s.next && n in s.succ && nr in s.next && nr in s.succ && s.next[n] == To(x, true)
      && Follow(s, n) == Some(nr)
      && nr in s.detour && Leads(s.next, Some(x), s.detour[nr], Follow(s, nr))
      && (forall d :: d in s.detour[nr] ==> d in s.dead)
    case UnlinkLoad(n) => n in s.succ && n in s.next && n != s.head
    case UnlinkCas(n, x) => n in s.succ && n in s.next && n != s.head
    case UnlinkPrev(n, next) => EdgeHeld(s, n, next) && n != s.head
    case UnlinkGrab(n, next, p) => EdgeHeld(s, n, next) && n != s.head && (p in s.succ || p in s.dead)
    case UnlinkBack(n, x, p) => EdgeHeld(s, n, Some(x)) && EdgeHeld(s, p, Some(n)) && n != s.head
    case UnlinkDrop(n, None, p) => EdgeHeld(s, n, None) && EdgeHeld(s, p, Some(n)) && n != s.head
    case UnlinkDrop(n, Some(x), p) =>
      && n in s.dead && n in s.next && s.next[n] == To(x, true)
      && p in s.succ && p in s.next && s.next[p] == To(n, true) && Follow(s, p) == Some(x)
    case Finished => true
  }

  // The prev pointers mirror the list, and an unmarked next pointer is the right neighbour.
  predicate NodeOk(s: State, a: Id)
    requires a in s.succ
  {
    && a in s.next && a !in s.dead
    && (s.succ[a].Some? ==>
          var b := s.succ[a].value;
          b in s.succ && b in s.next && b != a && b in s.prev && s.prev[b] == a)
    && (!Marked(s.next[a]) ==> s.next[a] == Plain(s.succ[a]))
  }

  ghost predicate ListOk(s: State) {
    && s.head in s.succ
    && (forall a {:trigger NodeOk(s, a)} :: a in s.succ ==> NodeOk(s, a))
    && (forall a :: a in s.dead ==> a in s.next && (s.next[a].Null? || s.next[a].marked))
  }

  // A new node is on a detour only while its publication is pending.
  ghost predicate DetoursOk(s: State) {
    forall nr :: nr in s.detour ==>
      exists o :: o in s.ops && s.ops[o].SplitPublish? && s.ops[o].nr == nr && s.ops[o].next.Some?
  }

  ghost predicate OwnersOk(s: State) {
    && (forall a :: a in s.succ && a in s.next && Marked(s.next[a]) ==> exists o :: o in s.ops && Owns(s.ops[o], a))
    && (forall o, q, a :: o in s.ops && q in s.ops && Owns(s.ops[o], a) && Owns(s.ops[q], a) ==> o == q)
    && (forall o, q, a :: o in s.ops && q in s.ops && a in Busy(s.ops[o]) && a in Busy(s.ops[q]) ==> o == q)
  }

  ghost predicate OpsOk(s: State) {
    forall o :: o in s.ops ==> OpOk(s, s.ops[o])
  }

  ghost predicate SeqOk(s: State) {
    Chain(s.list, s.succ) && s.list != [] && s.list[0] == s.head
  }

  ghost predicate Inv(s: State) {
    && ListOk(s)
    && OwnersOk(s)
    && DetoursOk(s)
    && OpsOk(s)
    && SeqOk(s)
  }

  // ---------------------------------------------------------------- rely

  // What an operation may count on while another one takes a step.
  ghost predicate Rely(s: State, s': State, op: Op) {
    && s'.head == s.head
    && (forall a :: a in s.next ==> a in s'.next)
    && (forall a :: a in s.dead ==> a in s'.dead && a in s.next && s'.next[a] == s.next[a])
    && (forall a :: a in s.succ ==> a in s'.succ || a in s'.dead)
    && (forall a :: a in Busy(op) && a in s.next ==> RelyBusy(s, s', a))
    && (forall a :: Owns(op, a) && a in s.next ==>
          s'.next[a] == s.next[a] && (a in s.succ ==> a in s'.succ) && Follow(s', a) == Follow(s, a))
    && RelyDetour(s, s', op)
  }

  ghost predicate RelyDetour(s: State, s': State, op: Op) {
    op.SplitPublish? && op.next.Some? && op.nr in s.detour ==>
      && op.nr in s'.detour
      && (forall d :: d in s'.detour[op.nr] ==> d in s'.dead)
      && (Leads(s.next, op.next, s.detour[op.nr], Follow(s, op.nr)) ==>
            Leads(s'.next, op.next, s'.detour[op.nr], Follow(s', op.nr)))
  }

  ghost predicate RelyBusy(s: State, s': State, a: Id)
    requires a in s.next && a in s'.next
  {
    && (a in s.succ <==> a in s'.succ)
    && (a in s.dead <==> a in s'.dead)
    && (s.next[a] == Null && Follow(s, a) == None ==> s'.next[a] == Null && Follow(s', a) == None)
    && (a !in s.succ && a !in s.dead ==>
          s'.next[a] == s.next[a] && (a in s.prev ==> a in s'.prev && s'.prev[a] == s.prev[a]))
  }

  lemma Stable(s: State, s': State, op: Op)
    requires OpOk(s, op) && Rely(s, s', op)
    ensures OpOk(s', op)
  {
  }

  lemma OwnedIsMarked(s: State, op: Op, a: Id)
    requires OpOk(s, op) && Owns(op, a)
    ensures a in s.next && Marked(s.next[a])
  {
  }

  // ---------------------------------------------------------------- frames

  ghost predicate OnlyMoved(s: State, s': State, o: OpId) {
    o in s.ops && o in s'.ops && s'.ops == s.ops[o := s'.ops[o]]
  }

  lemma FrameOps(s: State, s': State, o: OpId)
    requires ListOk(s) && OpsOk(s) && OnlyMoved(s, s', o) && OpOk(s', s'.ops[o])
    requires forall q :: q in s.ops && q != o ==> Rely(s, s', s.ops[q])
    ensures OpsOk(s')
  {
    forall q | q in s'.ops
      ensures OpOk(s', s'.ops[q])
    {
      if q != o {
        Stable(s, s', s.ops[q]);
      }
    }
  }

  // Marks change hands only as the pointers say.
  ghost predicate MarksMove(s: State, s': State, o: OpId)
    requires o in s.ops && o in s'.ops
  {
    && Busy(s'.ops[o]) <= Busy(s.ops[o])
    && (forall a :: Owns(s'.ops[o], a) && !Owns(s.ops[o], a) ==> a in s.next && !Marked(s.next[a]))
    && (forall a :: a in s'.succ && a in s'.next && Marked(s'.next[a]) ==>
          Owns(s'.ops[o], a) || (a in s.succ && a in s.next && Marked(s.next[a]) && !Owns(s.ops[o], a)))
  }

  lemma FrameOwners(s: State, s': State, o: OpId)
    requires OwnersOk(s) && OpsOk(s) && OnlyMoved(s, s', o) && MarksMove(s, s', o)
    ensures OwnersOk(s')
  {
    forall a | a in s'.succ && a in s'.next && Marked(s'.next[a])
      ensures exists q :: q in s'.ops && Owns(s'.ops[q], a)
    {
      if !Owns(s'.ops[o], a) {
        var q :| q in s.ops && Owns(s.ops[q], a);
        assert q != o && s'.ops[q] == s.ops[q];
      }
    }
    forall p, q, a | p in s'.ops && q in s'.ops && Owns(s'.ops[p], a) && Owns(s'.ops[q], a)
      ensures p == q
    {
      if p != o { OwnedIsMarked(s, s.ops[p], a); }
      if q != o { OwnedIsMarked(s, s.ops[q], a); }
    }
  }

  lemma FrameDetours(s: State, s': State, o: OpId)
    requires DetoursOk(s) && OnlyMoved(s, s', o)
    requires forall nr :: nr in s'.detour ==>
               || (nr in s.detour && !(s.ops[o].SplitPublish? && s.ops[o].nr == nr))
               || (s'.ops[o].SplitPublish? && s'.ops[o].nr == nr && s'.ops[o].next.Some?)
    ensures DetoursOk(s')
  {
    forall nr | nr in s'.detour
      ensures exists q :: q in s'.ops && s'.ops[q].SplitPublish? && s'.ops[q].nr == nr && s'.ops[q].next.Some?
    {
      if !(s'.ops[o].SplitPublish? && s'.ops[o].nr == nr && s'.ops[o].next.Some?) {
        var q :| q in s.ops && s.ops[q].SplitPublish? && s.ops[q].nr == nr && s.ops[q].next.Some?;
        assert q != o && s'.ops[q] == s.ops[q];
      }
    }
  }

  /** Detours pass through dead nodes only, and those never change. */
  lemma {:induction false} LeadsKept(next: map<Id, Ptr>, next': map<Id, Ptr>, first: Option<Id>, trail: seq<Id>,
                                     last: Option<Id>)
    requires Leads(next, first, trail, last)
    requires forall d :: d in trail && d in next ==> d in next' && next'[d] == next[d]
    ensures Leads(next', first, trail, last)
    decreases |trail|
  {
    if trail != [] {
      LeadsKept(next, next', Strip(next[trail[0]]), trail[1..], last);
    }
  }

  lemma {:induction false} LeadsExtend(next: map<Id, Ptr>, first: Option<Id>, trail: seq<Id>, d: Id)
    requires Leads(next, first, trail, Some(d)) && d in next
    ensures Leads(next, first, trail + [d], Strip(next[d]))
    decreases |trail|
  {
    if trail != [] {
      assert (trail + [d])[1..] == trail[1..] + [d];
      LeadsExtend(next, Strip(next[trail[0]]), trail[1..], d);
    } else {
      assert trail + [d] == [d];
    }
  }

  // ---------------------------------------------------------------- steps that leave the list alone

  // Nothing but marks, private fields and the operation itself changes.
  ghost predicate Quiet(s: State, s': State, o: OpId) {
    && OnlyMoved(s, s', o)
    && s'.head == s.head && s'.list == s.list && s'.succ == s.succ && s'.dead == s.dead && s'.detour == s.detour
    && s'.next.Keys == s.next.Keys
    && (forall a :: a in s.next && s'.next[a] != s.next[a] ==>
          || (a in s.succ && s.next[a].To? && !s.next[a].marked && s'.next[a] == To(s.next[a].id, true))
          || (a in Busy(s.ops[o]) && a !in s.succ && a !in s.dead))
    && (forall a :: a in s.prev ==> a in s'.prev && (a in s.succ || a !in Busy(s.ops[o]) ==> s'.prev[a] == s.prev[a]))
  }

  lemma QuietRely(s: State, s': State, o: OpId, q: OpId)
    requires q in s.ops && q != o && ListOk(s) && OpOk(s, s.ops[q]) && Quiet(s, s', o)
    requires Busy(s.ops[q]) * Busy(s.ops[o]) == {}
    requires forall a :: Owns(s.ops[q], a) ==> a !in Busy(s.ops[o]) || a in s.succ
    ensures Rely(s, s', s.ops[q])
  {
    var op := s.ops[q];
    assert OpOk(s, op);
    forall a | Owns(op, a) && a in s.next
      ensures s'.next[a] == s.next[a]
    {
      OwnedIsMarked(s, op, a);
    }
    assert Busy(op) * Busy(s.ops[o]) == {};
    if op.SplitPublish? && op.next.Some? && op.nr in s.detour {
      assert OpOk(s, op);
      LeadsKept(s.next, s'.next, op.next, s.detour[op.nr], Follow(s, op.nr));
    }
  }

  lemma QuietRelies(s: State, s': State, o: OpId)
    requires ListOk(s) && OwnersOk(s) && OpsOk(s) && Quiet(s, s', o)
    ensures forall q :: q in s.ops && q != o ==> Rely(s, s', s.ops[q])
  {
    forall q | q in s.ops && q != o
      ensures Rely(s, s', s.ops[q])
    {
      assert OpOk(s, s.ops[q]);
      forall a | Owns(s.ops[q], a)
        ensures a !in Busy(s.ops[o]) || a in s.succ
      {
      }
      QuietRely(s, s', o, q);
    }
  }

  lemma QuietList(s: State, s': State, o: OpId)
    requires ListOk(s) && Quiet(s, s', o)
    ensures ListOk(s')
  {
    forall a | a in s'.succ
      ensures NodeOk(s', a)
    {
      assert NodeOk(s, a);
    }
  }

  lemma QuietStep(s: State, s': State, o: OpId)
    requires Inv(s) && Quiet(s, s', o) && OpOk(s', s'.ops[o]) && MarksMove(s, s', o)
    requires s.ops[o].SplitPublish? ==> s.ops[o].nr !in s.detour
    ensures Inv(s')
  {
    QuietRelies(s, s', o);
    QuietList(s, s', o);
    FrameOps(s, s', o);
    FrameOwners(s, s', o);
    FrameDetours(s, s', o);
  }

  /** By the mirror property the prev pointer of a listed node is its left neighbour. */
  lemma PrevListed(s: State, n: Id)
    requires ListOk(s) && SeqOk(s) && n in s.succ && n != s.head
    ensures n in s.prev && s.prev[n] in s.succ && s.succ[s.prev[n]] == Some(n)
  {
    var i := Pos(s.list, n);
    assert Link(s.list, s.succ, i - 1);
    assert NodeOk(s, s.list[i - 1]);
  }

  predicate IsQuiet(op: Op) {
    op.SplitStart? || op.SplitLoad? || op.SplitCas? || op.SplitNext?
    || op.UnlinkLoad? || op.UnlinkCas? || op.UnlinkPrev? || op.UnlinkGrab?
  }

  lemma SplitQuiet(s: State, o: OpId)
    requires ListOk(s) && Enabled(s, o) && OpOk(s, s.ops[o])
    requires var op := s.ops[o]; op.SplitStart? || op.SplitLoad? || op.SplitCas? || op.SplitNext?
    ensures var s' := After(s, o); Quiet(s, s', o) && OpOk(s', s'.ops[o]) && MarksMove(s, s', o)
  {
    assert NodeOk(s, s.ops[o].n);
  }

  lemma UnlinkQuiet(s: State, o: OpId)
    requires ListOk(s) && Enabled(s, o) && OpOk(s, s.ops[o])
    requires var op := s.ops[o]; op.UnlinkLoad? || op.UnlinkCas?
    ensures var s' := After(s, o); Quiet(s, s', o) && OpOk(s', s'.ops[o]) && MarksMove(s, s', o)
  {
    assert NodeOk(s, s.ops[o].n);
  }

  lemma PrevQuiet(s: State, o: OpId)
    requires ListOk(s) && SeqOk(s) && Enabled(s, o) && OpOk(s, s.ops[o]) && s.ops[o].UnlinkPrev?
    ensures var s' := After(s, o); Quiet(s, s', o) && OpOk(s', s'.ops[o]) && MarksMove(s, s', o)
  {
    PrevListed(s, s.ops[o].n);
  }

  /** A swap on the left neighbour can only succeed while it is the left neighbour: the next pointer
      of a dead node stays marked. */
  lemma GrabQuiet(s: State, o: OpId)
    requires ListOk(s) && Enabled(s, o) && OpOk(s, s.ops[o]) && s.ops[o].UnlinkGrab?
    ensures var s' := After(s, o); Quiet(s, s', o) && OpOk(s', s'.ops[o]) && MarksMove(s, s', o)
  {
    var UnlinkGrab(n, next, p) := s.ops[o];
    if s.next[p] == To(n, false) {
      assert NodeOk(s, p);
    }
  }

  // ---------------------------------------------------------------- steps that change the list

  // What the other operations have to do with the nodes of operation o.
  ghost predicate Apart(s: State, o: OpId, q: OpId)
    requires o in s.ops && q in s.ops
  {
    && Busy(s.ops[o]) * Busy(s.ops[q]) == {}
    && (forall a :: Owns(s.ops[o], a) ==> !Owns(s.ops[q], a))
    && (forall a :: Owns(s.ops[q], a) ==> a in s.next && Marked(s.next[a]))
    && OpOk(s, s.ops[o]) && OpOk(s, s.ops[q])
  }

  lemma OthersApart(s: State, o: OpId)
    requires OwnersOk(s) && OpsOk(s) && o in s.ops
    ensures forall q :: q in s.ops && q != o ==> Apart(s, o, q)
  {
    forall q | q in s.ops && q != o
      ensures Apart(s, o, q)
    {
      forall a | Owns(s.ops[q], a)
        ensures a in s.next && Marked(s.next[a])
      {
        OwnedIsMarked(s, s.ops[q], a);
      }
    }
  }

  lemma PublishRely(s: State, o: OpId, q: OpId)
    requires ListOk(s) && Enabled(s, o) && s.ops[o].SplitPublish? && s.ops[o].next.Some?
    requires q in s.ops && q != o && Apart(s, o, q)
    ensures Rely(s, After(s, o), s.ops[q])
  {
    var s', op := After(s, o), s.ops[q];
    assert NodeOk(s, s.ops[o].n);
    if op.SplitPublish? && op.next.Some? && op.nr in s.detour {
      LeadsKept(s.next, s'.next, op.next, s.detour[op.nr], Follow(s, op.nr));
    }
  }

  lemma PublishOk(s: State, o: OpId)
    requires ListOk(s) && Enabled(s, o) && OpOk(s, s.ops[o]) && s.ops[o].SplitPublish? && s.ops[o].next.Some?
    ensures var s' := After(s, o); OnlyMoved(s, s', o) && ListOk(s') && OpOk(s', s'.ops[o]) && MarksMove(s, s', o)
  {
    var s' := After(s, o);
    forall a | a in s'.succ
      ensures NodeOk(s', a)
    {
      assert NodeOk(s, a);
    }
  }

  lemma LinkRely(s: State, o: OpId, q: OpId)
    requires ListOk(s) && Enabled(s, o) && s.ops[o].SplitPrev?
    requires q in s.ops && q != o && Apart(s, o, q)
    ensures Rely(s, After(s, o), s.ops[q])
  {
    var s', op := After(s, o), s.ops[q];
    assert NodeOk(s, s.ops[o].n);
    assert RelyDetour(s, s', op) by {
      if op.SplitPublish? {
        assert op.nr in Busy(op) && op.nr !in Busy(s.ops[o]);
        assert Follow(s', op.nr) == Follow(s, op.nr);
      }
    }
  }

  lemma LinkOk(s: State, o: OpId)
    requires ListOk(s) && Enabled(s, o) && OpOk(s, s.ops[o]) && s.ops[o].SplitPrev?
    ensures var s' := After(s, o); OnlyMoved(s, s', o) && ListOk(s') && OpOk(s', s'.ops[o]) && MarksMove(s, s', o)
  {
    var s' := After(s, o);
    var SplitPrev(n, nr, x) := s.ops[o];
    assert NodeOk(s, n);
    forall a | a in s'.succ
      ensures NodeOk(s', a)
    {
      if a != nr {
        assert NodeOk(s, a);
      }
    }
  }

  /** At the end of the list there is no edge to lock and no prev pointer to redirect. */
  lemma AppendRely(s: State, o: OpId, q: OpId)
    requires ListOk(s) && Enabled(s, o) && s.ops[o].SplitPublish? && s.ops[o].next.None?
    requires q in s.ops && q != o && Apart(s, o, q)
    ensures Rely(s, After(s, o), s.ops[q])
  {
    var s', op := After(s, o), s.ops[q];
    assert NodeOk(s, s.ops[o].n);
    assert RelyDetour(s, s', op) by {
      if op.SplitPublish? && op.next.Some? && op.nr in s.detour {
        NotShared(s, o, q, op.nr);
        LeadsKept(s.next, s'.next, op.next, s.detour[op.nr], Follow(s, op.nr));
        assert op.nr != s.ops[o].n && op.nr != s.ops[o].nr;
        assert Follow(s', op.nr) == Follow(s, op.nr);
      }
    }
  }

  lemma NotShared(s: State, o: OpId, q: OpId, a: Id)
    requires o in s.ops && q in s.ops && Apart(s, o, q) && a in Busy(s.ops[q])
    ensures a !in Busy(s.ops[o])
  {
    var shared := Busy(s.ops[o]) * Busy(s.ops[q]);
    assert a !in shared;
  }

  lemma AppendOk(s: State, o: OpId)
    requires ListOk(s) && Enabled(s, o) && OpOk(s, s.ops[o]) && s.ops[o].SplitPublish? && s.ops[o].next.None?
    ensures var s' := After(s, o); OnlyMoved(s, s', o) && ListOk(s') && OpOk(s', s'.ops[o]) && MarksMove(s, s', o)
  {
    var s' := After(s, o);
    var SplitPublish(n, nr, next) := s.ops[o];
    assert NodeOk(s, n);
    forall a | a in s'.succ
      ensures NodeOk(s', a)
    {
      if a != nr {
        assert NodeOk(s, a);
      }
    }
  }

  // ---------------------------------------------------------------- unlinking

  lemma DetourGrows(s: State, s': State, op: Op, n: Id, p: Id)
    requires OpOk(s, op) && op.SplitPublish? && op.next.Some? && op.nr == p && p in s.detour
    requires Follow(s, p) == Some(n) && n in s.next && Follow(s', p) == Strip(s.next[n])
    requires p in s'.detour && s'.detour[p] == s.detour[p] + [n]
    requires forall d :: d in s.detour[p] + [n] ==>
        d in s'.dead && d in s'.next && (d in s.next ==> s'.next[d] == s.next[d])
    ensures RelyDetour(s, s', op)
  {
    LeadsExtend(s.next, op.next, s.detour[p], n);
    LeadsKept(s.next, s'.next, op.next, s.detour[p] + [n], Strip(s.next[n]));
  }

  lemma UnlinkRely(s: State, o: OpId, q: OpId)
    requires ListOk(s) && Enabled(s, o) && s.ops[o].UnlinkBack?
    requires q in s.ops && q != o && Apart(s, o, q)
    ensures Rely(s, After(s, o), s.ops[q])
  {
    var s', op := After(s, o), s.ops[q];
    var UnlinkBack(n, x, p) := s.ops[o];
    assert NodeOk(s, n) && NodeOk(s, p);
    assert RelyDetour(s, s', op) by {
      if op.SplitPublish? && op.next.Some? && op.nr in s.detour {
        NotShared(s, o, q, op.nr);
        if op.nr == p {
          DetourGrows(s, s', op, n, p);
        } else {
          assert Follow(s', op.nr) == Follow(s, op.nr);
        }
      }
    }
  }

  lemma NoCycle(s: State, a: Id, b: Id)
    requires SeqOk(s) && a in s.succ && s.succ[a] == Some(b) && b in s.succ
    ensures s.succ[b] != Some(a)
  {
    var i, j := Pos(s.list, a), Pos(s.list, b);
    assert Link(s.list, s.succ, i) && Link(s.list, s.succ, j);
  }

  lemma UnlinkOk(s: State, o: OpId)
    requires ListOk(s) && SeqOk(s) && Enabled(s, o) && OpOk(s, s.ops[o]) && s.ops[o].UnlinkBack?
    ensures var s' := After(s, o); OnlyMoved(s, s', o) && ListOk(s') && OpOk(s', s'.ops[o]) && MarksMove(s, s', o)
  {
    var s' := After(s, o);
    var UnlinkBack(n, x, p) := s.ops[o];
    assert NodeOk(s, n) && NodeOk(s, p) && NodeOk(s, x);
    NoCycle(s, p, n);
    forall a | a in s'.succ
      ensures NodeOk(s', a)
    {
      assert NodeOk(s, a);
    }
  }

  lemma DropRely(s: State, o: OpId, q: OpId)
    requires ListOk(s) && Enabled(s, o) && s.ops[o].UnlinkDrop? && s.ops[o].next.Some?
    requires q in s.ops && q != o && Apart(s, o, q)
    ensures Rely(s, After(s, o), s.ops[q])
  {
    var s', op := After(s, o), s.ops[q];
    assert NodeOk(s, s.ops[o].p);
    if op.SplitPublish? && op.next.Some? && op.nr in s.detour {
      LeadsKept(s.next, s'.next, op.next, s.detour[op.nr], Follow(s, op.nr));
    }
  }

  lemma DropOk(s: State, o: OpId)
    requires ListOk(s) && Enabled(s, o) && OpOk(s, s.ops[o]) && s.ops[o].UnlinkDrop? && s.ops[o].next.Some?
    ensures var s' := After(s, o); OnlyMoved(s, s', o) && ListOk(s') && OpOk(s', s'.ops[o]) && MarksMove(s, s', o)
  {
    var s' := After(s, o);
    forall a | a in s'.succ
      ensures NodeOk(s', a)
    {
      assert NodeOk(s, a);
    }
  }

  lemma ChopRely(s: State, o: OpId, q: OpId)
    requires ListOk(s) && Enabled(s, o) && s.ops[o].UnlinkDrop? && s.ops[o].next.None?
    requires q in s.ops && q != o && Apart(s, o, q)
    ensures Rely(s, After(s, o), s.ops[q])
  {
    var s', op := After(s, o), s.ops[q];
    var UnlinkDrop(n, next, p) := s.ops[o];
    assert NodeOk(s, n) && NodeOk(s, p);
    assert RelyDetour(s, s', op) by {
      if op.SplitPublish? && op.next.Some? && op.nr in s.detour {
        assert op.nr in Busy(op);
        if op.nr == p {
          DetourGrows(s, s', op, n, p);
        } else {
          LeadsKept(s.next, s'.next, op.next, s.detour[op.nr], Follow(s, op.nr));
          assert Follow(s', op.nr) == Follow(s, op.nr);
        }
      }
    }
  }

  lemma ChopOk(s: State, o: OpId)
    requires ListOk(s) && Enabled(s, o) && OpOk(s, s.ops[o]) && s.ops[o].UnlinkDrop? && s.ops[o].next.None?
    ensures var s' := After(s, o); OnlyMoved(s, s', o) && ListOk(s') && OpOk(s', s'.ops[o]) && MarksMove(s, s', o)
  {
    var s' := After(s, o);
    var UnlinkDrop(n, next, p) := s.ops[o];
    assert NodeOk(s, n) && NodeOk(s, p);
    forall a | a in s'.succ
      ensures NodeOk(s', a)
    {
      assert NodeOk(s, a);
    }
  }
}
