/** The leaf level of the Bw-tree as a step system: a mapping table of delta chains changed by CAS, and
    any number of operations that load snapshots, walk right, post deltas, consolidate, split, remove
    and help each other's merges along.

    A CAS succeeds only on a snapshot that still equals the table entry; that it fails may always
    happen, which covers every pointer the table can hold. Node IDs are never reused (that is what the
    epoch manager is for). */
module BwTable {
  import opened Entries
  import opened BwChain
  import opened BwSearch
  import opened BwCollect

  type Pid = nat

  const LEAF_UPPER: nat := 128
  const LEAF_LOWER: nat := 32

  datatype Request = Change(op: Op) | Read(k: Key)

  function KeyOf(r: Request): Key {
    if r.Change? then r.op.key else r.k
  }

  datatype Answer = Changed(result: bool) | Found(value: Option<Value>)

  /** `since` counts the changes of the map made before the operation began, `at` those made before the
      snapshot was loaded (or before the answer took effect). */
  datatype Proc =
    | Seek(req: Request, since: nat)
    | At(req: Request, since: nat, id: NodeId, snap: Chain, at: nat)
    | Splitting(req: Request, since: nat, id: NodeId, snap: Chain, at: nat, sibling: NodeId)
    | Helping(req: Request, since: nat, removed: NodeId, right: Chain)
    | Merging(req: Request, since: nat, removed: NodeId, right: Chain, id: NodeId, snap: Chain)
    | Done(req: Request, since: nat, answer: Answer, at: nat)

  /** `linked` are the IDs that have ever been the target of a next pointer: the only ones a traversal
      can come by. `history` lists the stored map after each change, the current one last. */
  datatype State = State(table: map<NodeId, Chain>, linked: set<NodeId>, unused: NodeId,
                         procs: map<Pid, Proc>, history: seq<map<Key, Value>>)

  datatype Step =
    | Begin(req: Request)
    | Load(id: NodeId)
    | GoRight
    | Reply
    | Post
    | Consolidate
    | InstallSibling
    | SplitCas
    | SplitFail
    | RemoveCas
    | Help
    | LoadLeft(id: NodeId)
    | MergeCas
    | Abort

  function Init(): State {
    State(map[FIRST_LEAF := Leaf([], Bound(0, INVALID), Bound(0, INVALID))], {FIRST_LEAF}, FIRST_LEAF + 1, map[],
        [map[]])
  }

  // ----- splitting a base leaf ----------------------------------------------------------------

  function SplitPoint(items: seq<Entry>): nat {
    |items| / 2
  }

  function SplitKey(c: Chain): Key
    requires c.Leaf? && c.items != []
  {
    c.items[SplitPoint(c.items)].key
  }

  /** The new right sibling of a base leaf. */
  function Sibling(c: Chain): Chain
    requires c.Leaf? && c.items != []
  {
    Leaf(c.items[SplitPoint(c.items)..], Bound(SplitKey(c), KNOWN), c.high)
  }

  function SplitDelta(c: Chain, sibling: NodeId): Chain
    requires c.Leaf? && c.items != []
  {
    Split(Bound(SplitKey(c), sibling), |Sibling(c).items|, c)
  }

  /** FindSplitPoint, on keys that may repeat: a boundary between two different keys that leaves both
      halves above the merge threshold, or -1. With unique keys it is the middle. */
  method FindSplitPoint(items: seq<Entry>) returns (point: int)
    requires |items| / 2 > 1
    requires forall i, j :: 0 <= i < j < |items| ==> items[i].key <= items[j].key
    ensures point != -1 ==> 0 < point < |items| && items[point - 1].key < items[point].key
    ensures point != -1 && |items| >= LEAF_UPPER ==> point > LEAF_LOWER && |items| - point > LEAF_LOWER
    ensures Sorted(KeysOf(items)) && |items| >= LEAF_UPPER ==> point == SplitPoint(items)
  {
    var central := |items| / 2;
    var it := central - 1;
    while it != 0 && items[it].key == items[central].key
      invariant 0 <= it < central && items[it + 1].key == items[central].key
      invariant Sorted(KeysOf(items)) ==> it == central - 1
      decreases it
    {
      Duplicate(items, it, central);
      it := it - 1;
    }
    it := it + 1;
    if it > LEAF_LOWER {
      return it;
    }
    it := central + 1;
    while it != |items| && items[it].key == items[central].key
      invariant central < it <= |items| && items[it - 1].key == items[central].key
    {
      it := it + 1;
    }
    return if |items| - it > LEAF_LOWER then it else -1;
  }

  lemma Duplicate(items: seq<Entry>, i: nat, j: nat)
    requires i < j < |items| && items[i].key == items[j].key
    ensures !Sorted(KeysOf(items))
  {
    assert KeysOf(items)[i] == KeysOf(items)[j];
  }

  // ----- steps --------------------------------------------------------------------------------

  function Now(s: State): nat
    requires s.history != []
  {
    |s.history| - 1
  }

  function Current(s: State): map<Key, Value>
    requires s.history != []
  {
    s.history[|s.history| - 1]
  }

  /** The delta the operation would post on its snapshot. */
  function Posting(p: Proc): Option<Delta>
    requires p.At? && p.req.Change?
  {
    DeltaFor(p.req.op, MapGet(Replay(p.snap), p.req.op.key), PlaceOf(p.snap, p.req.op.key))
  }

  /** The snapshot covers the operation's key from above, and the node is not being removed. */
  predicate OnTarget(p: Proc)
    requires p.At?
  {
    !p.snap.Remove? && Below(KeyOf(p.req), High(p.snap))
  }

  predicate Holds(s: State, p: Proc)
    requires p.At? || p.Splitting? || p.Merging?
  {
    p.id in s.table && s.table[p.id] == p.snap
  }

  predicate Enabled(s: State, pid: Pid, step: Step)
  {
    && s.history != []
    && (if step.Begin? then pid !in s.procs || s.procs[pid].Done? else
        && pid in s.procs
        && var p := s.procs[pid];
        match step
        case Load(id) => p.Seek? && id in s.linked && id in s.table && AtLeast(KeyOf(p.req), Low(s.table[id]))
        case GoRight =>
          p.At? && !p.snap.Remove? && !Below(KeyOf(p.req), High(p.snap)) && High(p.snap).id in s.table
        case Reply => p.At? && OnTarget(p) && (p.req.Read? || Posting(p).None?)
        case Post => p.At? && OnTarget(p) && p.req.Change? && Posting(p).Some? && Holds(s, p)
        case Consolidate => p.At? && !p.snap.Remove? && !p.snap.Leaf? && Holds(s, p)
        case InstallSibling => p.At? && p.snap.Leaf? && |p.snap.items| >= LEAF_UPPER
        case SplitCas => p.Splitting? && p.snap.Leaf? && p.snap.items != [] && Holds(s, p)
        case SplitFail => p.Splitting?
        case RemoveCas =>
          p.At? && p.snap.Leaf? && |p.snap.items| <= LEAF_LOWER && p.id != FIRST_LEAF && Holds(s, p)
        case Help => p.At? && p.snap.Remove?
        case LoadLeft(id) =>
          && p.Helping? && id in s.linked && id in s.table
          && !s.table[id].Remove? && High(s.table[id]).id == p.removed
        case MergeCas => p.Merging? && Holds(s, p)
        case Abort => !p.Done?)
  }

  function Move(s: State, pid: Pid, p: Proc): State {
    s.(procs := s.procs[pid := p])
  }

  function Install(s: State, id: NodeId, c: Chain): State {
    s.(table := s.table[id := c])
  }

  function ReplyOf(p: Proc): Answer
    requires p.At?
  {
    if p.req.Read? then Found(MapGet(Replay(p.snap), p.req.k)) else Changed(false)
  }

  function After(s: State, pid: Pid, step: Step): State
    requires Enabled(s, pid, step)
  {
    if step.Begin? then Move(s, pid, Seek(step.req, Now(s))) else
    var p := s.procs[pid];
    match step
    case Load(id) => Move(s, pid, At(p.req, p.since, id, s.table[id], Now(s)))
    case GoRight =>
      var right := High(p.snap).id;
      Move(s, pid, At(p.req, p.since, right, s.table[right], Now(s)))
    case Reply => Move(s, pid, Done(p.req, p.since, ReplyOf(p), p.at))
    case Post =>
      var effect := Perform(Current(s), p.req.op);
      Move(Install(s, p.id, Data(Posting(p).value, p.snap)), pid,
          Done(p.req, p.since, Changed(!p.req.op.UpsertOp? || Posting(p).value.kind.Ins?), Now(s)))
      .(history := s.history + [effect.0])
    case Consolidate =>
      var leaf := Consolidated(p.snap);
      Move(Install(s, p.id, leaf), pid, At(p.req, p.since, p.id, leaf, p.at))
    case InstallSibling =>
      Move(Install(s, s.unused, Sibling(p.snap)), pid, Splitting(p.req, p.since, p.id, p.snap, p.at, s.unused))
      .(unused := s.unused + 1)
    case SplitCas =>
      Move(Install(s, p.id, SplitDelta(p.snap, p.sibling)), pid,
          Seek(p.req, p.since)).(linked := s.linked + {p.sibling})
    case SplitFail => Move(s, pid, At(p.req, p.since, p.id, p.snap, p.at))
    case RemoveCas => Move(Install(s, p.id, Remove(p.id, p.snap)), pid, Seek(p.req, p.since))
    case Help => Move(s, pid, Helping(p.req, p.since, p.id, p.snap.child))
    case LoadLeft(id) => Move(s, pid, Merging(p.req, p.since, p.removed, p.right, id, s.table[id]))
    case MergeCas =>
      var merged := Merge(High(p.snap), p.snap, p.right);
      Move(Install(s, p.id, merged), pid, At(p.req, p.since, p.id, merged, Now(s)))
    case Abort => Move(s, pid, Seek(p.req, p.since))
  }

  ghost predicate Next(s: State, t: State) {
    exists pid, step :: Enabled(s, pid, step) && t == After(s, pid, step)
  }

  ghost predicate Run(states: seq<State>) {
    && states != [] && states[0] == Init()
    && (forall i :: 0 <= i < |states| - 1 ==> Next(states[i], states[i + 1]))
  }
}
