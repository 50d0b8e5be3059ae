/** What every run of the leaf level keeps: the linked leaves partition the key space in order, and
    together they hold exactly the current map. */
module BwInvariant {
  import opened Entries
  import opened BwChain
  import opened BwSearch
  import opened BwCollect
  import opened BwTable

  ghost predicate ChainOk(id: NodeId, c: Chain) {
    if c.Remove? then c.id == id && c.child.Leaf? && WellFormed(c.child) else WellFormed(c)
  }

  /** A next pointer leads to a linked node whose low key is the high key next to the pointer. */
  ghost predicate Target(s: State, high: Bound) {
    high.id != INVALID ==>
      high.id in s.linked && high.id in s.table && Low(s.table[high.id]) == Bound(high.key, KNOWN)
  }

  ghost predicate NodeOk(s: State, id: NodeId)
    requires id in s.table
  {
    FIRST_LEAF <= id < s.unused && ChainOk(id, s.table[id]) && (id in s.linked ==> Target(s, High(s.table[id])))
  }

  ghost predicate TableOk(s: State) {
    && s.linked <= s.table.Keys
    && (forall id {:trigger NodeOk(s, id)} :: id in s.table ==> NodeOk(s, id))
  }

  /** `order` are the leaves met along the next pointers from the first leaf. */
  ghost predicate IsWalk(table: map<NodeId, Chain>, order: seq<NodeId>) {
    && order != [] && order[0] == FIRST_LEAF
    && (forall i :: 0 <= i < |order| ==> order[i] in table)
    && (forall i {:trigger NextId(order, i)} :: 0 <= i < |order| ==> High(table[order[i]]).id == NextId(order, i))
  }

  function NextId(order: seq<NodeId>, i: nat): NodeId {
    if i + 1 < |order| then order[i + 1] else INVALID
  }

  /** A node the walk does not meet has been merged into its left neighbour. */
  ghost predicate OrderOk(s: State, order: seq<NodeId>) {
    && IsWalk(s.table, order)
    && (forall i, j :: 0 <= i < j < |order| ==> order[i] != order[j])
    && (forall i :: 0 <= i < |order| ==> order[i] in s.linked)
    && Low(s.table[FIRST_LEAF]).id == INVALID
    && (forall id :: id in s.linked && id in s.table ==> id in order || s.table[id].Remove?)
  }

  ghost predicate NodeAgrees(m: map<Key, Value>, c: Chain) {
    forall k :: InRange(k, c) ==> MapGet(m, k) == MapGet(Replay(c), k)
  }

  ghost predicate MapOk(s: State, order: seq<NodeId>) {
    && s.history != []
    && (forall i :: 0 <= i < |order| && order[i] in s.table ==> NodeAgrees(Current(s), s.table[order[i]]))
  }

  ghost predicate SnapOk(s: State, id: NodeId, c: Chain) {
    && id in s.linked && id in s.table
    && ChainOk(id, c) && Low(c) == Low(s.table[id]) && Target(s, High(c))
  }

  ghost predicate Loaded(s: State, p: Proc)
    requires p.At? || p.Splitting?
  {
    && SnapOk(s, p.id, p.snap) && AtLeast(KeyOf(p.req), Low(p.snap))
    && p.since <= p.at < |s.history|
    && (if p.snap.Remove? then s.table[p.id] == p.snap else NodeAgrees(s.history[p.at], p.snap))
  }

  ghost predicate Removed(s: State, id: NodeId, child: Chain) {
    id in s.linked && id in s.table && s.table[id] == Remove(id, child)
  }

  /** The answer is the one the request has on the map as it stood when it took effect; a change that
      was posted made exactly the step of the history that follows. */
  ghost predicate Legal(s: State, p: Proc)
    requires p.Done?
  {
    && p.since <= p.at < |s.history|
    && match p.req
       case Read(k) => p.answer == Found(MapGet(s.history[p.at], k))
       case Change(op) =>
         && p.answer == Changed(Perform(s.history[p.at], op).1)
         && (Perform(s.history[p.at], op).0 == s.history[p.at]
             || (p.at + 1 < |s.history| && s.history[p.at + 1] == Perform(s.history[p.at], op).0))
  }

  ghost predicate ProcOk(s: State, p: Proc) {
    match p
    case Seek(_, since) => since < |s.history|
    case At(_, _, _, _, _) => Loaded(s, p)
    case Splitting(_, _, _, snap, _, sibling) =>
      && Loaded(s, p) && snap.Leaf? && |snap.items| >= LEAF_UPPER
      && sibling in s.table && sibling !in s.linked && s.table[sibling] == Sibling(snap)
    case Helping(req, since, removed, right) =>
      since < |s.history| && Removed(s, removed, right) && AtLeast(KeyOf(req), Low(right))
    case Merging(req, since, removed, right, id, snap) =>
      && since < |s.history| && Removed(s, removed, right) && AtLeast(KeyOf(req), Low(right))
      && SnapOk(s, id, snap) && !snap.Remove? && High(snap).id == removed
    case Done(_, _, _, _) => Legal(s, p)
  }

  ghost predicate ProcsOk(s: State) {
    forall pid :: pid in s.procs ==> ProcOk(s, s.procs[pid])
  }

  /** No two splits have taken the same new ID. */
  ghost predicate SiblingsApart(s: State) {
    forall p, q :: p in s.procs && q in s.procs && p != q && s.procs[p].Splitting? && s.procs[q].Splitting? ==>
      s.procs[p].sibling != s.procs[q].sibling
  }

  ghost predicate Inv(s: State, order: seq<NodeId>) {
    TableOk(s) && OrderOk(s, order) && MapOk(s, order) && ProcsOk(s) && SiblingsApart(s)
  }

  // ----- the walk -----------------------------------------------------------------------------

  lemma NextLow(s: State, order: seq<NodeId>, i: nat)
    requires TableOk(s) && OrderOk(s, order) && i + 1 < |order|
    ensures High(s.table[order[i]]) == Bound(Low(s.table[order[i + 1]]).key, order[i + 1])
    ensures Low(s.table[order[i + 1]]).id == KNOWN && order[i + 1] != INVALID
  {
    assert NodeOk(s, order[i]);
    assert NodeOk(s, order[i + 1]);
    assert NextId(order, i) == order[i + 1];
  }

  lemma ProperNode(s: State, id: NodeId)
    requires TableOk(s) && id in s.table
    ensures Proper(Low(s.table[id]), High(s.table[id]))
  {
    assert NodeOk(s, id);
    var c := s.table[id];
    RangeProper(if c.Remove? then c.child else c);
  }

  /** Every leaf of the walk lies to the left of all later ones. */
  lemma {:induction false} RangesApart(s: State, order: seq<NodeId>, i: nat, j: nat)
    requires TableOk(s) && OrderOk(s, order) && i < j < |order|
    ensures High(s.table[order[i]]).id != INVALID && Low(s.table[order[j]]).id != INVALID
    ensures High(s.table[order[i]]).key <= Low(s.table[order[j]]).key
    decreases j
  {
    NextLow(s, order, j - 1);
    if i < j - 1 {
      RangesApart(s, order, i, j - 1);
      ProperNode(s, order[j - 1]);
    } else {
      NextLow(s, order, i);
    }
  }

  lemma SameLeaf(s: State, order: seq<NodeId>, i: nat, j: nat, k: Key)
    requires TableOk(s) && OrderOk(s, order) && i < |order| && j < |order|
    requires InRange(k, s.table[order[i]]) && InRange(k, s.table[order[j]])
    ensures i == j
  {
    if i < j {
      RangesApart(s, order, i, j);
    } else if j < i {
      RangesApart(s, order, j, i);
    }
  }

  /** Every key is in the range of some leaf of the walk. */
  lemma {:induction false} SomeLeaf(s: State, order: seq<NodeId>, k: Key, from: nat) returns (i: nat)
    requires TableOk(s) && OrderOk(s, order) && from < |order|
    requires AtLeast(k, Low(s.table[order[from]]))
    ensures from <= i < |order| && InRange(k, s.table[order[i]])
    decreases |order| - from
  {
    if Below(k, High(s.table[order[from]])) {
      i := from;
    } else {
      assert NextId(order, from) != INVALID;
      NextLow(s, order, from);
      i := SomeLeaf(s, order, k, from + 1);
    }
  }

  /** The walk is determined by the table. */
  lemma {:induction false} WalkUnique(table: map<NodeId, Chain>, a: seq<NodeId>, b: seq<NodeId>, n: nat)
    requires IsWalk(table, a) && IsWalk(table, b) && INVALID !in table && n <= |a|
    ensures n <= |b| && a[..n] == b[..n]
    ensures n == |a| ==> |a| == |b|
  {
    if n > 0 {
      WalkUnique(table, a, b, n - 1);
      if n > 1 {
        assert a[n - 2] == a[..n - 1][n - 2] == b[..n - 1][n - 2] == b[n - 2];
        assert NextId(a, n - 2) == a[n - 1] && a[n - 1] in table;
        assert NextId(b, n - 2) == a[n - 1];
      }
      assert a[n - 1] == b[n - 1];
      assert NextId(a, n - 1) == NextId(b, n - 1);
      assert n < |b| ==> b[n] in table;
    }
  }
}
