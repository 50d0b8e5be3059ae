/** What holds in every run of the Bw-tree's leaf level. */
module BwTheorems {
  import opened Entries
  import opened BwChain
  import opened BwSearch
  import opened BwCollect
  import opened BwTable
  import opened BwInvariant
  import opened BwSteps

  lemma InitInv()
    ensures Inv(Init(), [FIRST_LEAF])
  {
    var s := Init();
    assert NodeOk(s, FIRST_LEAF);
    var leaf := s.table[FIRST_LEAF];
    forall k ensures MapGet(Current(s), k) == MapGet(Replay(leaf), k) { MapOfGet([], k); }
  }

  lemma NextInv(s: State, t: State, order: seq<NodeId>) returns (order': seq<NodeId>)
    requires Inv(s, order) && Next(s, t)
    ensures Inv(t, order')
  {
    var pid, step :| Enabled(s, pid, step) && t == After(s, pid, step);
    order' := StepKeepsInv(s, order, pid, step);
  }

  lemma {:induction false} RunInv(states: seq<State>, n: nat) returns (order: seq<NodeId>)
    requires Run(states) && n < |states|
    ensures Inv(states[n], order)
  {
    if n == 0 {
      InitInv();
      order := [FIRST_LEAF];
    } else {
      var before := RunInv(states, n - 1);
      assert Next(states[n - 1], states[n - 1 + 1]);
      order := NextInv(states[n - 1], states[n], before);
    }
  }

  /** The leaves met along the next pointers from the first leaf split the key space between them:
      every key is in the range of exactly one, and each high key is the next leaf's low key. */
  ghost predicate Partition(table: map<NodeId, Chain>, order: seq<NodeId>) {
    && IsWalk(table, order)
    && (forall k :: Covered(table, order, k))
    && (forall k, i, j ::
        0 <= i < |order| && 0 <= j < |order| && InRange(k, table[order[i]]) && InRange(k, table[order[j]]) ==> i == j)
    && (forall i :: 0 < i < |order| ==> High(table[order[i - 1]]).key == Low(table[order[i]]).key)
  }

  ghost predicate Covered(table: map<NodeId, Chain>, order: seq<NodeId>, k: Key) {
    exists i :: 0 <= i < |order| && order[i] in table && InRange(k, table[order[i]])
  }

  lemma InvPartition(s: State, order: seq<NodeId>)
    requires Inv(s, order)
    ensures Partition(s.table, order)
  {
    forall k ensures Covered(s.table, order, k) {
      var i := SomeLeaf(s, order, k, 0);
    }
    forall k, i, j |
      0 <= i < |order| && 0 <= j < |order| && InRange(k, s.table[order[i]]) && InRange(k, s.table[order[j]])
      ensures i == j
    {
      SameLeaf(s, order, i, j, k);
    }
    forall i | 0 < i < |order| ensures High(s.table[order[i - 1]]).key == Low(s.table[order[i]]).key {
      NextLow(s, order, i - 1);
    }
  }

  /** All that the leaves of a walk hold. */
  function Union(table: map<NodeId, Chain>, order: seq<NodeId>): map<Key, Value>
    requires forall i :: 0 <= i < |order| ==> order[i] in table
  {
    if order == [] then map[] else Union(table, order[..|order| - 1]) + Replay(table[order[|order| - 1]])
  }

  lemma {:induction false} UnionGet(s: State, order: seq<NodeId>, n: nat, k: Key)
    requires Inv(s, order) && n <= |order|
    ensures forall i :: 0 <= i < n && InRange(k, s.table[order[i]]) ==>
              MapGet(Union(s.table, order[..n]), k) == MapGet(Replay(s.table[order[i]]), k)
    ensures (forall i :: 0 <= i < n ==> !InRange(k, s.table[order[i]])) ==> k !in Union(s.table, order[..n])
  {
    if n > 0 {
      UnionGet(s, order, n - 1, k);
      assert order[..n][..n - 1] == order[..n - 1];
      var c := s.table[order[n - 1]];
      assert NodeOk(s, order[n - 1]);
      if k in Replay(c) {
        ReplayInRange(if c.Remove? then c.child else c, k);
      }
      if InRange(k, c) {
        forall i | 0 <= i < n && InRange(k, s.table[order[i]]) ensures i == n - 1 {
          SameLeaf(s, order, i, n - 1, k);
        }
      }
    }
  }

  /** What the tree holds is the current map. */
  lemma UnionIs(s: State, order: seq<NodeId>)
    requires Inv(s, order)
    ensures Union(s.table, order) == Current(s)
  {
    assert order[..|order|] == order;
    var u := Union(s.table, order);
    forall k ensures MapGet(u, k) == MapGet(Current(s), k) {
      var i := SomeLeaf(s, order, k, 0);
      UnionGet(s, order, |order|, k);
      assert NodeAgrees(Current(s), s.table[order[i]]);
    }
    MapEqual(u, Current(s));
  }

  lemma MapEqual(a: map<Key, Value>, b: map<Key, Value>)
    requires forall k :: MapGet(a, k) == MapGet(b, k)
    ensures a == b
  {
    forall k ensures (k in a <==> k in b) && (k in a ==> a[k] == b[k]) {
      assert MapGet(a, k) == MapGet(b, k);
    }
  }

  /** The invariant holds of whatever walk the table has. */
  lemma WalkInv(states: seq<State>, n: nat, order: seq<NodeId>)
    requires Run(states) && n < |states| && IsWalk(states[n].table, order)
    ensures Inv(states[n], order)
  {
    var walk := RunInv(states, n);
    NoInvalid(states[n], walk);
    WalkUnique(states[n].table, walk, order, |walk|);
    assert walk == walk[..|walk|] == order[..|walk|] == order;
  }

  /** In every state of every run the leaves partition the key space. */
  lemma RunsPartition(states: seq<State>, n: nat, order: seq<NodeId>)
    requires Run(states) && n < |states| && IsWalk(states[n].table, order)
    ensures Partition(states[n].table, order)
  {
    WalkInv(states, n, order);
    InvPartition(states[n], order);
  }

  lemma NoInvalid(s: State, order: seq<NodeId>)
    requires Inv(s, order)
    ensures INVALID !in s.table
  {
    forall id | id in s.table ensures id != INVALID { assert NodeOk(s, id); }
  }

  lemma RunsHaveWalk(states: seq<State>, n: nat) returns (order: seq<NodeId>)
    requires Run(states) && n < |states|
    ensures states[n].history != []
    ensures IsWalk(states[n].table, order) && Union(states[n].table, order) == Current(states[n])
  {
    order := RunInv(states, n);
    UnionIs(states[n], order);
  }

  /** Splits, consolidations, removals and merges, finished or not, leave the stored map as it is; a
      posted delta performs its operation on it, and nothing else. */
  lemma OnlyPostsChangeTheMap(states: seq<State>, n: nat, before: seq<NodeId>, after: seq<NodeId>, pid: Pid, step: Step)
    requires Run(states) && n + 1 < |states|
    requires Enabled(states[n], pid, step) && states[n + 1] == After(states[n], pid, step)
    requires IsWalk(states[n].table, before) && IsWalk(states[n + 1].table, after)
    ensures Union(states[n + 1].table, after) ==
            if step.Post? then Perform(Union(states[n].table, before), states[n].procs[pid].req.op).0
            else Union(states[n].table, before)
  {
    var s, t := states[n], states[n + 1];
    WalkInv(states, n, before);
    WalkInv(states, n + 1, after);
    UnionIs(s, before);
    UnionIs(t, after);
    MapAfter(s, pid, step);
  }

  lemma MapAfter(s: State, pid: Pid, step: Step)
    requires Enabled(s, pid, step)
    ensures After(s, pid, step).history != []
    ensures Current(After(s, pid, step)) ==
            if step.Post? then Perform(Current(s), s.procs[pid].req.op).0 else Current(s)
  {
  }

  /** Every answer is the one the operation has on the map of a moment between its call and its
      return, and a change that reports success was made at that moment. */
  lemma AnswersLegal(states: seq<State>, n: nat, pid: Pid)
    requires Run(states) && n < |states| && pid in states[n].procs && states[n].procs[pid].Done?
    ensures Legal(states[n], states[n].procs[pid])
  {
    var order := RunInv(states, n);
    assert ProcOk(states[n], states[n].procs[pid]);
  }

  /** A node ID keeps its low key for ever, and once removed it is never written again. */
  lemma {:induction false} LowKeysFixed(states: seq<State>, n: nat, m: nat, id: NodeId)
    requires Run(states) && n <= m < |states| && id in states[n].table
    ensures id in states[m].table && Low(states[m].table[id]) == Low(states[n].table[id])
    ensures states[n].table[id].Remove? ==> states[m].table[id] == states[n].table[id]
    decreases m
  {
    if n < m {
      LowKeysFixed(states, n, m - 1, id);
      var order := RunInv(states, m - 1);
      assert Next(states[m - 1], states[m - 1 + 1]);
      var pid, step :| Enabled(states[m - 1], pid, step) && states[m] == After(states[m - 1], pid, step);
      StepRely(states[m - 1], order, pid, step);
      assert NodeRely(states[m - 1], states[m], id);
    }
  }

  lemma StepRely(s: State, order: seq<NodeId>, pid: Pid, step: Step)
    requires Inv(s, order) && Enabled(s, pid, step)
    ensures Rely(s, After(s, pid, step))
  {
    var t := After(s, pid, step);
    if !step.Begin? {
      assert ProcOk(s, s.procs[pid]);
      if step.InstallSibling? {
        assert NodeOk(s, s.procs[pid].id);
        forall x | x in s.table ensures x < s.unused { assert NodeOk(s, x); }
      }
      if step.Consolidate? { ConsolidatedOk(s.procs[pid].snap); }
    }
    forall id | id in s.table ensures NodeRely(s, t, id) {}
  }
}
