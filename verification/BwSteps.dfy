/** Every step of the leaf level keeps the invariant. */
module BwSteps {
  import opened Entries
  import opened BwChain
  import opened BwSearch
  import opened BwCollect
  import opened BwTable
  import opened BwInvariant

  // ----- what a step leaves alone -------------------------------------------------------------

  ghost predicate NodeRely(s: State, t: State, id: NodeId)
    requires id in s.table && id in t.table
  {
    && Low(t.table[id]) == Low(s.table[id])
    && (s.table[id].Remove? || id !in s.linked ==> t.table[id] == s.table[id])
  }

  /** Low keys never change, removed nodes and nodes not yet linked are not touched, history only
      grows. */
  ghost predicate Rely(s: State, t: State) {
    && s.linked <= t.linked && s.table.Keys <= t.table.Keys
    && (forall id {:trigger NodeRely(s, t, id)} :: id in s.table ==> NodeRely(s, t, id))
    && s.history <= t.history
  }

  lemma TargetStable(s: State, t: State, high: Bound)
    requires Rely(s, t) && Target(s, high)
    ensures Target(t, high)
  {
    if high.id != INVALID {
      assert NodeRely(s, t, high.id);
    }
  }

  lemma SnapStable(s: State, t: State, id: NodeId, c: Chain)
    requires Rely(s, t) && SnapOk(s, id, c)
    ensures SnapOk(t, id, c)
  {
    assert NodeRely(s, t, id);
    TargetStable(s, t, High(c));
  }

  lemma HistoryStable(s: State, t: State, i: nat)
    requires s.history <= t.history && i < |s.history|
    ensures t.history[i] == s.history[i]
  {
  }

  lemma LegalStable(s: State, t: State, p: Proc)
    requires Rely(s, t) && p.Done? && Legal(s, p)
    ensures Legal(t, p)
  {
    HistoryStable(s, t, p.at);
    if p.at + 1 < |s.history| {
      HistoryStable(s, t, p.at + 1);
    }
  }

  /** Steps of others do not disturb an operation. */
  lemma Stable(s: State, t: State, p: Proc)
    requires Rely(s, t) && ProcOk(s, p)
    requires p.Splitting? ==> p.sibling !in t.linked
    ensures ProcOk(t, p)
  {
    match p
    case Seek(_, _) =>
    case At(_, _, id, snap, at) =>
      SnapStable(s, t, id, snap);
      HistoryStable(s, t, at);
      assert NodeRely(s, t, id);
    case Splitting(_, _, id, snap, at, sibling) =>
      SnapStable(s, t, id, snap);
      HistoryStable(s, t, at);
      assert NodeRely(s, t, sibling);
    case Helping(_, _, removed, _) =>
      assert NodeRely(s, t, removed);
    case Merging(_, _, removed, _, id, snap) =>
      assert NodeRely(s, t, removed);
      SnapStable(s, t, id, snap);
    case Done(_, _, _, _) =>
      LegalStable(s, t, p);
  }

  /** Puts the parts of a step together. */
  lemma Assemble(s: State, t: State, order: seq<NodeId>, pid: Pid, p: Proc)
    requires TableOk(t) && OrderOk(t, order) && MapOk(t, order)
    requires Rely(s, t) && ProcsOk(s) && SiblingsApart(s)
    requires t.procs == s.procs[pid := p] && ProcOk(t, p)
    requires forall q :: q in s.procs && q != pid && s.procs[q].Splitting? ==> s.procs[q].sibling !in t.linked
    requires p.Splitting? ==> p.sibling !in s.table
    ensures Inv(t, order)
  {
    forall q | q in t.procs ensures ProcOk(t, t.procs[q]) {
      if q != pid { Stable(s, t, s.procs[q]); }
    }
    forall q, r | q in t.procs && r in t.procs && q != r && t.procs[q].Splitting? && t.procs[r].Splitting?
      ensures t.procs[q].sibling != t.procs[r].sibling
    {
      assert q != pid ==> ProcOk(s, s.procs[q]);
      assert r != pid ==> ProcOk(s, s.procs[r]);
    }
  }

  lemma SameTree(s: State, t: State, order: seq<NodeId>)
    requires TableOk(s) && OrderOk(s, order) && MapOk(s, order)
    requires t == s.(procs := t.procs)
    ensures TableOk(t) && OrderOk(t, order) && MapOk(t, order) && Rely(s, t)
  {
    forall id | id in s.table ensures NodeRely(s, t, id) {}
    forall id | id in t.table ensures NodeOk(t, id) { assert NodeOk(s, id); }
  }

  /** A step that changes only the stepping operation. */
  lemma Local(s: State, order: seq<NodeId>, pid: Pid, p: Proc)
    requires Inv(s, order) && ProcOk(s, p) && !p.Splitting?
    ensures Inv(Move(s, pid, p), order)
  {
    var t := Move(s, pid, p);
    SameTree(s, t, order);
    Stable(s, t, p);
    NotSiblings(s, pid);
    Assemble(s, t, order, pid, p);
  }

  // ----- loading ------------------------------------------------------------------------------

  /** A linked node that is not removed is on the walk. */
  lemma OnWalk(s: State, order: seq<NodeId>, id: NodeId) returns (i: nat)
    requires OrderOk(s, order) && id in s.linked && id in s.table && !s.table[id].Remove?
    ensures i < |order| && order[i] == id
  {
    i :| 0 <= i < |order| && order[i] == id;
  }

  lemma LoadOk(s: State, order: seq<NodeId>, id: NodeId, req: Request, since: nat)
    requires TableOk(s) && OrderOk(s, order) && MapOk(s, order)
    requires id in s.linked && id in s.table && AtLeast(KeyOf(req), Low(s.table[id])) && since < |s.history|
    ensures ProcOk(s, At(req, since, id, s.table[id], Now(s)))
  {
    assert NodeOk(s, id);
    if !s.table[id].Remove? {
      var i := OnWalk(s, order, id);
    }
  }

  // ----- answers ------------------------------------------------------------------------------

  lemma PerformAgree(m: map<Key, Value>, n: map<Key, Value>, op: Op, k: Key)
    requires MapGet(m, op.key) == MapGet(n, op.key)
    ensures Perform(m, op).1 == Perform(n, op).1
    ensures MapGet(m, k) == MapGet(n, k) ==> MapGet(Perform(m, op).0, k) == MapGet(Perform(n, op).0, k)
    ensures k != op.key ==> MapGet(Perform(m, op).0, k) == MapGet(m, k)
  {
  }

  lemma ReplyOk(s: State, p: Proc)
    requires p.At? && ProcOk(s, p) && OnTarget(p) && (p.req.Read? || Posting(p).None?)
    ensures ProcOk(s, Done(p.req, p.since, ReplyOf(p), p.at))
  {
    var m, k := s.history[p.at], KeyOf(p.req);
    assert InRange(k, p.snap);
    assert MapGet(m, k) == MapGet(Replay(p.snap), k);
  }

  // ----- replacing a chain by an equal one ----------------------------------------------------

  lemma Replaced(s: State, t: State, order: seq<NodeId>, i: nat, c: Chain)
    requires TableOk(s) && OrderOk(s, order) && i < |order|
    requires t.table == s.table[order[i] := c] && t.linked == s.linked && t.unused == s.unused
    requires !s.table[order[i]].Remove? && ChainOk(order[i], c)
    requires Low(c) == Low(s.table[order[i]]) && High(c) == High(s.table[order[i]])
    requires s.history <= t.history
    ensures TableOk(t) && OrderOk(t, order) && Rely(s, t)
  {
    var id := order[i];
    forall x | x in s.table ensures NodeRely(s, t, x) {}
    forall x | x in t.table ensures NodeOk(t, x) {
      assert NodeOk(s, x);
      if x in s.linked { TargetStable(s, t, High(s.table[x])); }
    }
    forall j | 0 <= j < |order| ensures High(t.table[order[j]]).id == NextId(order, j) {
      assert High(s.table[order[j]]).id == NextId(order, j);
    }
  }

  lemma NotSiblings(s: State, pid: Pid)
    requires ProcsOk(s)
    ensures forall q :: q in s.procs && q != pid && s.procs[q].Splitting? ==> s.procs[q].sibling !in s.linked
  {
    forall q | q in s.procs && q != pid && s.procs[q].Splitting? ensures s.procs[q].sibling !in s.linked {
      assert ProcOk(s, s.procs[q]);
    }
  }

  lemma ConsolidateStep(s: State, order: seq<NodeId>, pid: Pid)
    requires Inv(s, order) && Enabled(s, pid, Consolidate)
    ensures Inv(After(s, pid, Consolidate), order)
  {
    var p, t := s.procs[pid], After(s, pid, Consolidate);
    assert ProcOk(s, p);
    var leaf := Consolidated(p.snap);
    var i := OnWalk(s, order, p.id);
    ConsolidatedOk(p.snap);
    Replaced(s, t, order, i, leaf);
    SnapStable(s, t, p.id, leaf);
    NotSiblings(s, pid);
    Assemble(s, t, order, pid, t.procs[pid]);
  }

  lemma RemoveStep(s: State, order: seq<NodeId>, pid: Pid)
    requires Inv(s, order) && Enabled(s, pid, RemoveCas)
    ensures Inv(After(s, pid, RemoveCas), order)
  {
    var p, t := s.procs[pid], After(s, pid, RemoveCas);
    assert ProcOk(s, p);
    var i := OnWalk(s, order, p.id);
    Replaced(s, t, order, i, Remove(p.id, p.snap));
    NotSiblings(s, pid);
    Assemble(s, t, order, pid, t.procs[pid]);
  }

  // ----- data deltas --------------------------------------------------------------------------

  lemma PostStep(s: State, order: seq<NodeId>, pid: Pid)
    requires Inv(s, order) && Enabled(s, pid, Post)
    ensures Inv(After(s, pid, Post), order)
  {
    var p, t := s.procs[pid], After(s, pid, Post);
    var i := PostPlace(s, order, pid);
    PostTree(s, t, order, i, p.req.op);
    PerformAgree(Current(s), Replay(p.snap), p.req.op, p.req.op.key);
    NotSiblings(s, pid);
    Assemble(s, t, order, pid, t.procs[pid]);
  }

  /** The node that is posted on lies on the walk and agrees with the map at the key. */
  lemma PostPlace(s: State, order: seq<NodeId>, pid: Pid) returns (i: nat)
    requires Inv(s, order) && Enabled(s, pid, Post)
    ensures var p := s.procs[pid];
            && i < |order| && order[i] == p.id && ProcOk(s, p) && InRange(p.req.op.key, p.snap)
            && MapGet(Current(s), p.req.op.key) == MapGet(Replay(p.snap), p.req.op.key)
  {
    var p := s.procs[pid];
    assert ProcOk(s, p);
    i := OnWalk(s, order, p.id);
    assert NodeAgrees(Current(s), p.snap);
  }

  lemma PostTree(s: State, t: State, order: seq<NodeId>, i: nat, op: Op)
    requires TableOk(s) && OrderOk(s, order) && MapOk(s, order) && i < |order|
    requires !s.table[order[i]].Remove? && InRange(op.key, s.table[order[i]])
    requires var c := s.table[order[i]];
             var d := DeltaFor(op, MapGet(Replay(c), op.key), PlaceOf(c, op.key));
             d.Some? && t.table == s.table[order[i] := Data(d.value, c)]
    requires t.linked == s.linked && t.unused == s.unused
    requires t.history == s.history + [Perform(Current(s), op).0]
    ensures TableOk(t) && OrderOk(t, order) && MapOk(t, order) && Rely(s, t)
  {
    var c := s.table[order[i]];
    assert NodeOk(s, order[i]);
    PostKeeps(c, op);
    Replaced(s, t, order, i, t.table[order[i]]);
    forall j | 0 <= j < |order| && order[j] in t.table ensures NodeAgrees(Current(t), t.table[order[j]]) {
      PostAgrees(s, t, order, i, j, op);
    }
  }

  lemma PostAgrees(s: State, t: State, order: seq<NodeId>, i: nat, j: nat, op: Op)
    requires TableOk(s) && OrderOk(s, order) && MapOk(s, order) && i < |order| && j < |order|
    requires InRange(op.key, s.table[order[i]])
    requires t.history == s.history + [Perform(Current(s), op).0]
    requires order[i] in t.table && order[j] in t.table
    requires j != i ==> t.table[order[j]] == s.table[order[j]]
    requires Low(t.table[order[i]]) == Low(s.table[order[i]]) && High(t.table[order[i]]) == High(s.table[order[i]])
    requires Replay(t.table[order[i]]) == Perform(Replay(s.table[order[i]]), op).0
    ensures NodeAgrees(Current(t), t.table[order[j]])
  {
    var m, c := Current(s), s.table[order[j]];
    assert NodeAgrees(m, c);
    forall k | InRange(k, t.table[order[j]])
      ensures MapGet(Current(t), k) == MapGet(Replay(t.table[order[j]]), k)
    {
      if j == i {
        assert InRange(k, c) && InRange(op.key, c);
        PerformAgree(m, Replay(c), op, k);
      } else {
        if k == op.key { SameLeaf(s, order, i, j, k); }
        PerformAgree(m, m, op, k);
      }
    }
  }

  // ----- splits -------------------------------------------------------------------------------

  lemma SiblingOk(c: Chain, id: NodeId, sibling: NodeId, m: map<Key, Value>)
    requires c.Leaf? && WellFormed(c) && |c.items| >= 2 && sibling != INVALID && sibling != id
    ensures WellFormed(Sibling(c)) && WellFormed(SplitDelta(c, sibling))
    ensures NodeAgrees(m, c) ==> NodeAgrees(m, Sibling(c)) && NodeAgrees(m, SplitDelta(c, sibling))
  {
    var items, cut := c.items, SplitPoint(c.items);
    var right := items[cut..];
    assert forall i :: 0 <= i < |right| ==> KeysOf(right)[i] == KeysOf(items)[cut + i];
    assert KeysOf(items)[0] < KeysOf(items)[cut];
    if NodeAgrees(m, c) {
      forall k | InRange(k, Sibling(c)) ensures MapGet(m, k) == MapGet(Replay(Sibling(c)), k) {
        assert InRange(k, c);
        MapOfGet(items, k);
        MapOfGet(right, k);
        UpperGet(items, cut, k);
      }
    }
  }

  lemma UpperGet(items: seq<Entry>, cut: nat, k: Key)
    requires Sorted(KeysOf(items)) && cut < |items| && items[cut].key <= k
    ensures LeafGet(items[cut..], k) == LeafGet(items, k)
  {
    SliceGet(items, cut, |items|, k);
    assert items[cut..] == items[cut..|items|];
    forall i | 0 <= i < cut ensures KeysOf(items)[i] < k {
      assert KeysOf(items)[i] < KeysOf(items)[cut];
    }
  }

  lemma InstallStep(s: State, order: seq<NodeId>, pid: Pid)
    requires Inv(s, order) && Enabled(s, pid, InstallSibling)
    ensures Inv(After(s, pid, InstallSibling), order)
  {
    var p, t := s.procs[pid], After(s, pid, InstallSibling);
    assert ProcOk(s, p);
    assert NodeOk(s, p.id);
    SiblingOk(p.snap, p.id, s.unused, map[]);
    InstallTree(s, t, order, Sibling(p.snap));
    SnapStable(s, t, p.id, p.snap);
    NotSiblings(s, pid);
    Assemble(s, t, order, pid, t.procs[pid]);
  }

  /** A chain stored under a new ID is not yet part of the tree. */
  lemma InstallTree(s: State, t: State, order: seq<NodeId>, c: Chain)
    requires TableOk(s) && OrderOk(s, order) && MapOk(s, order) && FIRST_LEAF <= s.unused
    requires t.table == s.table[s.unused := c] && t.linked == s.linked && t.unused == s.unused + 1
    requires t.history == s.history && !c.Remove? && WellFormed(c)
    ensures s.unused !in s.table
    ensures TableOk(t) && OrderOk(t, order) && MapOk(t, order) && Rely(s, t)
  {
    forall x | x in s.table ensures x < s.unused { assert NodeOk(s, x); }
    forall x | x in s.table ensures NodeRely(s, t, x) {}
    InstallTable(s, t, c);
    InstallOrder(s, t, order, c);
  }

  lemma InstallTable(s: State, t: State, c: Chain)
    requires TableOk(s) && FIRST_LEAF <= s.unused && s.unused !in s.table && Rely(s, t)
    requires t.table == s.table[s.unused := c] && t.linked == s.linked && t.unused == s.unused + 1
    requires !c.Remove? && WellFormed(c)
    ensures TableOk(t)
  {
    forall x | x in t.table ensures NodeOk(t, x) {
      if x in s.table {
        assert NodeOk(s, x);
        if x in s.linked { TargetStable(s, t, High(s.table[x])); }
      }
    }
  }

  lemma InstallOrder(s: State, t: State, order: seq<NodeId>, c: Chain)
    requires TableOk(s) && OrderOk(s, order) && MapOk(s, order) && s.unused !in s.table
    requires t.table == s.table[s.unused := c] && t.linked == s.linked && t.history == s.history
    ensures OrderOk(t, order) && MapOk(t, order)
  {
    forall j | 0 <= j < |order| ensures High(t.table[order[j]]).id == NextId(order, j) {
      assert High(s.table[order[j]]).id == NextId(order, j);
    }
  }

  lemma SplitStep(s: State, order: seq<NodeId>, pid: Pid) returns (order': seq<NodeId>)
    requires Inv(s, order) && Enabled(s, pid, SplitCas)
    ensures Inv(After(s, pid, SplitCas), order')
  {
    var p, t := s.procs[pid], After(s, pid, SplitCas);
    assert ProcOk(s, p);
    var i := OnWalk(s, order, p.id);
    order' := order[..i + 1] + [p.sibling] + order[i + 1..];
    SplitTree(s, t, order, i, p.snap, p.sibling);
    forall q | q in s.procs && q != pid && s.procs[q].Splitting? ensures s.procs[q].sibling !in t.linked {
      assert ProcOk(s, s.procs[q]);
    }
    Assemble(s, t, order', pid, t.procs[pid]);
  }

  lemma SplitTree(s: State, t: State, order: seq<NodeId>, i: nat, c: Chain, sibling: NodeId)
    requires TableOk(s) && OrderOk(s, order) && MapOk(s, order) && i < |order|
    requires s.table[order[i]] == c && c.Leaf? && |c.items| >= LEAF_UPPER
    requires sibling in s.table && sibling !in s.linked && s.table[sibling] == Sibling(c)
    requires t.table == s.table[order[i] := SplitDelta(c, sibling)] && t.linked == s.linked + {sibling}
    requires t.unused == s.unused && t.history == s.history
    ensures var order' := order[..i + 1] + [sibling] + order[i + 1..];
            TableOk(t) && OrderOk(t, order') && MapOk(t, order') && Rely(s, t)
  {
    var id := order[i];
    assert NodeOk(s, id);
    assert NodeOk(s, sibling);
    SiblingOk(c, id, sibling, Current(s));
    forall x | x in s.table ensures NodeRely(s, t, x) {}
    TargetStable(s, t, High(c));
    forall x | x in t.table ensures NodeOk(t, x) {
      assert NodeOk(s, x);
      if x in s.linked && x != id { TargetStable(s, t, High(s.table[x])); }
    }
    SplitOrder(s, t, order, i, sibling);
    SplitMap(s, t, order, i, sibling);
  }

  lemma SplitMap(s: State, t: State, order: seq<NodeId>, i: nat, sibling: NodeId)
    requires MapOk(s, order) && i < |order| && t.history == s.history
    requires forall j :: 0 <= j < |order| ==>
        order[j] in s.table && order[j] in t.table && (j != i ==> t.table[order[j]] == s.table[order[j]])
    requires NodeAgrees(Current(s), t.table[order[i]])
    requires sibling in t.table && NodeAgrees(Current(s), t.table[sibling])
    ensures MapOk(t, order[..i + 1] + [sibling] + order[i + 1..])
  {
    var order' := order[..i + 1] + [sibling] + order[i + 1..];
    forall j | 0 <= j < |order'| && order'[j] in t.table ensures NodeAgrees(Current(t), t.table[order'[j]]) {
      if j < i + 1 {
        assert order'[j] == order[j];
      } else if j > i + 1 {
        assert order'[j] == order[j - 1];
      }
    }
  }

  lemma Spliced(order: seq<NodeId>, i: nat, sibling: NodeId)
    requires i < |order|
    ensures var r := order[..i + 1] + [sibling] + order[i + 1..];
            && |r| == |order| + 1 && r[i + 1] == sibling
            && (forall j :: 0 <= j <= i ==> r[j] == order[j])
            && (forall j :: i + 1 < j < |r| ==> r[j] == order[j - 1])
            && (forall x :: x in r <==> x in order || x == sibling)
            && (sibling !in order && (forall a, b :: 0 <= a < b < |order| ==> order[a] != order[b]) ==>
                 forall a, b :: 0 <= a < b < |r| ==> r[a] != r[b])
  {
    var r := order[..i + 1] + [sibling] + order[i + 1..];
    assert order == order[..i + 1] + order[i + 1..];
    assert forall x :: x in r <==> x in order[..i + 1] || x == sibling || x in order[i + 1..];
    assert forall x :: x in order <==> x in order[..i + 1] || x in order[i + 1..];
  }

  lemma SplitOrder(s: State, t: State, order: seq<NodeId>, i: nat, sibling: NodeId)
    requires OrderOk(s, order) && i < |order| && sibling in s.table && sibling !in s.linked
    requires t.table.Keys == s.table.Keys && t.linked == s.linked + {sibling}
    requires forall x :: x in s.table && x != order[i] ==> t.table[x] == s.table[x]
    requires High(t.table[order[i]]).id == sibling && Low(t.table[order[i]]) == Low(s.table[order[i]])
    requires High(s.table[sibling]) == High(s.table[order[i]])
    ensures OrderOk(t, order[..i + 1] + [sibling] + order[i + 1..])
  {
    var order' := order[..i + 1] + [sibling] + order[i + 1..];
    Spliced(order, i, sibling);
    forall j | 0 <= j < |order'| ensures order'[j] in t.linked && order'[j] in t.table {
      if j <= i {
        assert order'[j] == order[j];
      } else if j > i + 1 {
        assert order'[j] == order[j - 1];
      }
    }
    forall j | 0 <= j < |order'| ensures High(t.table[order'[j]]).id == NextId(order', j) {
      SplitNext(s, t, order, i, sibling, j);
    }
  }

  lemma SplitNext(s: State, t: State, order: seq<NodeId>, i: nat, sibling: NodeId, j: nat)
    requires OrderOk(s, order) && i < |order| && sibling in s.table && sibling !in s.linked
    requires t.table.Keys == s.table.Keys
    requires forall x :: x in s.table && x != order[i] ==> t.table[x] == s.table[x]
    requires High(t.table[order[i]]).id == sibling && High(s.table[sibling]) == High(s.table[order[i]])
    requires j < |order| + 1
    ensures var r := order[..i + 1] + [sibling] + order[i + 1..];
            r[j] in t.table && High(t.table[r[j]]).id == NextId(r, j)
  {
    var r := order[..i + 1] + [sibling] + order[i + 1..];
    var o := if j <= i then j else j - 1;
    assert High(s.table[order[o]]).id == NextId(order, o);
    if j < i {
      assert r[j] == order[j] && r[j + 1] == order[j + 1];
    } else if j == i {
      assert r[j] == order[i] && r[j + 1] == sibling;
    } else if j == i + 1 {
      assert r[j] == sibling && (j + 1 < |r| ==> r[j + 1] == order[i + 1]);
    } else {
      assert r[j] == order[j - 1] && (j + 1 < |r| ==> r[j + 1] == order[j]);
      assert order[j - 1] != order[i];
    }
  }

  // ----- merges -------------------------------------------------------------------------------

  lemma MergeStep(s: State, order: seq<NodeId>, pid: Pid) returns (order': seq<NodeId>)
    requires Inv(s, order) && Enabled(s, pid, MergeCas)
    ensures Inv(After(s, pid, MergeCas), order')
  {
    var p, t := s.procs[pid], After(s, pid, MergeCas);
    assert ProcOk(s, p);
    var i := OnWalk(s, order, p.id);
    assert High(s.table[order[i]]).id == NextId(order, i);
    assert NodeOk(s, p.removed);
    order' := order[..i + 1] + order[i + 2..];
    MergeTree(s, t, order, i, p.snap, p.right);
    RangeProper(p.snap);
    NextLow(s, order, i);
    LoadOk(t, order', p.id, p.req, p.since);
    NotSiblings(s, pid);
    Assemble(s, t, order', pid, t.procs[pid]);
  }

  lemma MergeTree(s: State, t: State, order: seq<NodeId>, i: nat, left: Chain, right: Chain)
    requires TableOk(s) && OrderOk(s, order) && MapOk(s, order) && i + 1 < |order|
    requires s.table[order[i]] == left && !left.Remove? && s.table[order[i + 1]] == Remove(order[i + 1], right)
    requires t.table == s.table[order[i] := Merge(High(left), left, right)] && t.linked == s.linked
    requires t.unused == s.unused && t.history == s.history
    ensures var order' := order[..i + 1] + order[i + 2..];
            TableOk(t) && OrderOk(t, order') && MapOk(t, order') && Rely(s, t)
  {
    var id, merged := order[i], Merge(High(left), left, right);
    assert NodeOk(s, id);
    assert NodeOk(s, order[i + 1]);
    NextLow(s, order, i);
    assert WellFormed(merged);
    forall x | x in s.table ensures NodeRely(s, t, x) {}
    TargetStable(s, t, High(right));
    forall x | x in t.table ensures NodeOk(t, x) {
      assert NodeOk(s, x);
      if x in s.linked && x != id { TargetStable(s, t, High(s.table[x])); }
    }
    MergeOrder(s, t, order, i);
    MergeAgrees(Current(s), left, right, merged);
    MergeMap(s, t, order, i);
  }

  lemma MergeMap(s: State, t: State, order: seq<NodeId>, i: nat)
    requires MapOk(s, order) && i + 1 < |order| && t.history == s.history
    requires forall j :: 0 <= j < |order| ==>
        order[j] in s.table && order[j] in t.table && (j != i ==> t.table[order[j]] == s.table[order[j]])
    requires NodeAgrees(Current(s), t.table[order[i]])
    ensures MapOk(t, order[..i + 1] + order[i + 2..])
  {
    var order' := order[..i + 1] + order[i + 2..];
    forall j | 0 <= j < |order'| && order'[j] in t.table ensures NodeAgrees(Current(t), t.table[order'[j]]) {
      if j <= i {
        assert order'[j] == order[j];
      } else {
        assert order'[j] == order[j + 1];
      }
    }
  }

  lemma MergeAgrees(m: map<Key, Value>, left: Chain, right: Chain, merged: Chain)
    requires merged == Merge(High(left), left, right) && WellFormed(merged)
    requires NodeAgrees(m, left) && NodeAgrees(m, Remove(High(left).id, right))
    ensures NodeAgrees(m, merged)
  {
    BranchesApart(merged);
    forall k | InRange(k, merged) ensures MapGet(m, k) == MapGet(Replay(merged), k) {
      if k < merged.item.key {
        assert InRange(k, left);
      } else {
        assert InRange(k, Remove(High(left).id, right));
      }
    }
  }

  lemma Dropped(order: seq<NodeId>, i: nat)
    requires i + 1 < |order|
    ensures var r := order[..i + 1] + order[i + 2..];
            && |r| == |order| - 1
            && (forall j :: 0 <= j <= i ==> r[j] == order[j])
            && (forall j :: i < j < |r| ==> r[j] == order[j + 1])
            && (forall x :: x in order <==> x in r || x == order[i + 1])
            && ((forall a, b :: 0 <= a < b < |order| ==> order[a] != order[b]) ==>
                 forall a, b :: 0 <= a < b < |r| ==> r[a] != r[b])
  {
    var r := order[..i + 1] + order[i + 2..];
    assert order == order[..i + 1] + [order[i + 1]] + order[i + 2..];
    assert forall x :: x in r <==> x in order[..i + 1] || x in order[i + 2..];
    assert forall x :: x in order <==> x in order[..i + 1] || x == order[i + 1] || x in order[i + 2..];
  }

  lemma MergeOrder(s: State, t: State, order: seq<NodeId>, i: nat)
    requires OrderOk(s, order) && i + 1 < |order|
    requires t.table.Keys == s.table.Keys && t.linked == s.linked
    requires forall x :: x in s.table && x != order[i] ==> t.table[x] == s.table[x]
    requires High(t.table[order[i]]).id == High(s.table[order[i + 1]]).id
    requires Low(t.table[order[i]]) == Low(s.table[order[i]])
    requires s.table[order[i + 1]].Remove?
    ensures OrderOk(t, order[..i + 1] + order[i + 2..])
  {
    var order' := order[..i + 1] + order[i + 2..];
    Dropped(order, i);
    assert order[i + 1] != order[i];
    forall j | 0 <= j < |order'| ensures order'[j] in t.linked && order'[j] in t.table {
      if j <= i {
        assert order'[j] == order[j];
      } else {
        assert order'[j] == order[j + 1];
      }
    }
    forall j | 0 <= j < |order'| ensures High(t.table[order'[j]]).id == NextId(order', j) {
      MergeNext(s, t, order, i, j);
    }
  }

  lemma MergeNext(s: State, t: State, order: seq<NodeId>, i: nat, j: nat)
    requires OrderOk(s, order) && i + 1 < |order| && t.table.Keys == s.table.Keys
    requires forall x :: x in s.table && x != order[i] ==> t.table[x] == s.table[x]
    requires High(t.table[order[i]]).id == High(s.table[order[i + 1]]).id
    requires j < |order| - 1
    ensures var r := order[..i + 1] + order[i + 2..];
            r[j] in t.table && High(t.table[r[j]]).id == NextId(r, j)
  {
    var r := order[..i + 1] + order[i + 2..];
    var o := if j < i then j else j + 1;
    assert High(s.table[order[o]]).id == NextId(order, o);
    if j < i {
      assert r[j] == order[j] && r[j + 1] == order[j + 1];
    } else if j == i {
      assert r[j] == order[i] && (j + 1 < |r| ==> r[j + 1] == order[i + 2]);
    } else {
      assert r[j] == order[j + 1] && (j + 1 < |r| ==> r[j + 1] == order[j + 2]);
      assert order[j + 1] != order[i];
    }
  }

  // ----- all steps ----------------------------------------------------------------------------

  lemma LocalStep(s: State, order: seq<NodeId>, pid: Pid, step: Step)
    requires Inv(s, order) && Enabled(s, pid, step)
    requires || step.Begin? || step.Load? || step.GoRight? || step.Reply?
             || step.SplitFail? || step.Help? || step.LoadLeft? || step.Abort?
    ensures Inv(After(s, pid, step), order)
  {
    var t := After(s, pid, step);
    if !step.Begin? {
      var p := s.procs[pid];
      assert ProcOk(s, p);
      match step
      case Load(id) => LoadOk(s, order, id, p.req, p.since);
      case GoRight => LoadOk(s, order, High(p.snap).id, p.req, p.since);
      case Reply => ReplyOk(s, p);
      case SplitFail =>
      case Help =>
      case LoadLeft(id) => assert NodeOk(s, id);
      case Abort =>
    }
    Local(s, order, pid, t.procs[pid]);
  }

  lemma StepKeepsInv(s: State, order: seq<NodeId>, pid: Pid, step: Step) returns (order': seq<NodeId>)
    requires Inv(s, order) && Enabled(s, pid, step)
    ensures Inv(After(s, pid, step), order')
  {
    order' := order;
    match step
    case Post => PostStep(s, order, pid);
    case Consolidate => ConsolidateStep(s, order, pid);
    case InstallSibling => InstallStep(s, order, pid);
    case SplitCas => order' := SplitStep(s, order, pid);
    case RemoveCas => RemoveStep(s, order, pid);
    case MergeCas => order' := MergeStep(s, order, pid);
    case _ => LocalStep(s, order, pid, step);
  }
}
