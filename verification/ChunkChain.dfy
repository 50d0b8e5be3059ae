/** The Bw-tree's allocator of preallocated chunks: any number of calls of Allocate on one chain, each
    load, fetch_sub and CAS a step of its own. Offsets count from the limit of a chunk. */
module ChunkChain {
  import opened Entries

  type Id = nat
  type Pid = nat

  datatype Chunk = Chunk(tail: int, next: Option<Id>)

  datatype Block = Block(chunk: Id, start: int, size: nat)

  datatype Pc =
    | Check(at: Id)                 // TryAllocate: tail.load()
    | Sub(at: Id)                   // TryAllocate: tail.fetch_sub(size)
    | Look(at: Id)                  // GrowChunk: next.load()
    | Link(at: Id, spare: Id)       // GrowChunk: CAS of next, with a new chunk
    | Done(block: Block)

  datatype Call = Call(size: nat, pc: Pc)

  /** `chain` lists the linked chunks from the header on; `freed` are the chunks given back. */
  datatype State = State(capacity: nat, chunks: map<Id, Chunk>, unused: Id, calls: map<Pid, Call>, chain: seq<Id>,
      freed: set<Id>)

  datatype Step = Begin(size: nat) | Go

  function Init(capacity: nat): State {
    State(capacity, map[0 := Chunk(capacity, None)], 1, map[], [0], {})
  }

  predicate Enabled(s: State, p: Pid, step: Step) {
    match step
    case Begin(_) => p !in s.calls
    case Go =>
      p in s.calls &&
      match s.calls[p].pc
      case Check(at) => at in s.chunks
      case Sub(at) => at in s.chunks
      case Look(at) => at in s.chunks
      case Link(at, spare) => at in s.chunks && spare in s.chunks
      case Done(_) => false
  }

  function SetPc(s: State, p: Pid, pc: Pc): State
    requires p in s.calls
  {
    s.(calls := s.calls[p := s.calls[p].(pc := pc)])
  }

  function After(s: State, p: Pid, step: Step): State
    requires Enabled(s, p, step)
  {
    match step
    case Begin(size) => s.(calls := s.calls[p := Call(size, Check(0))])
    case Go =>
      var size := s.calls[p].size;
      match s.calls[p].pc
      case Check(at) => SetPc(s, p, if s.chunks[at].tail < 0 then Look(at) else Sub(at))
      case Sub(at) =>
        var tail := s.chunks[at].tail - size;
        SetPc(s, p, if tail < 0 then Look(at) else Done(Block(at, tail, size)))
        .(chunks := s.chunks[at := s.chunks[at].(tail := tail)])
      case Look(at) =>
        if s.chunks[at].next.Some? then SetPc(s, p, Check(s.chunks[at].next.value))
        else
          SetPc(s, p, Link(at, s.unused)).(chunks := s.chunks[s.unused := Chunk(s.capacity, None)],
              unused := s.unused + 1)
      case Link(at, spare) =>
        if s.chunks[at].next.None? then
          SetPc(s, p, Check(spare))
          .(chunks := s.chunks[at := s.chunks[at].(next := Some(spare))], chain := s.chain + [spare])
        else
          SetPc(s, p, Check(s.chunks[at].next.value)).(chunks := s.chunks - {spare}, freed := s.freed + {spare})
  }

  ghost predicate Next(s: State, t: State) {
    exists p, step :: Enabled(s, p, step) && t == After(s, p, step)
  }

  ghost predicate StepAt(states: seq<State>, i: nat)
    requires i + 1 < |states|
  {
    Next(states[i], states[i + 1])
  }

  ghost predicate Run(states: seq<State>) {
    && states != [] && states[0] == Init(states[0].capacity)
    && forall i {:trigger StepAt(states, i)} :: 0 <= i < |states| - 1 ==> StepAt(states, i)
  }

  // ----- the invariant ------------------------------------------------------------------------

  ghost predicate Linked(s: State, i: nat)
    requires i < |s.chain|
  {
    && s.chain[i] in s.chunks
    && s.chunks[s.chain[i]].next == if i + 1 < |s.chain| then Some(s.chain[i + 1]) else None
  }

  /** The chunks linked from the header on, each with its one successor. */
  ghost predicate ChainOk(s: State) {
    && s.chain != [] && s.chain[0] == 0
    && (forall i, j :: 0 <= i < j < |s.chain| ==> s.chain[i] != s.chain[j])
    && (forall i {:trigger Linked(s, i)} :: 0 <= i < |s.chain| ==> Linked(s, i))
  }

  ghost predicate ChunksOk(s: State) {
    && (forall c :: c in s.chunks ==> c < s.unused && c !in s.freed && s.chunks[c].tail <= s.capacity)
    && (forall c :: c in s.freed ==> c < s.unused)
  }

  /** A block lies in its chunk, above the tail. */
  ghost predicate BlockOk(s: State, b: Block) {
    && b.chunk in s.chunks && b.chunk in s.chain
    && 0 <= b.start && b.start + b.size <= s.capacity && s.chunks[b.chunk].tail <= b.start
  }

  ghost predicate CallOk(s: State, call: Call) {
    match call.pc
    case Check(at) => at in s.chain
    case Sub(at) => at in s.chain
    case Look(at) => at in s.chain
    case Link(at, spare) =>
      at in s.chain && spare !in s.chain && spare in s.chunks && s.chunks[spare] == Chunk(s.capacity, None)
    case Done(block) => BlockOk(s, block) && block.size == call.size
  }

  /** Two calls share neither a block nor a chunk that is not linked yet. */
  ghost predicate Apart(a: Pc, b: Pc) {
    && (a.Link? && b.Link? ==> a.spare != b.spare)
    && (a.Done? && b.Done? ==> Disjoint(a.block, b.block))
  }

  predicate Disjoint(a: Block, b: Block) {
    a.chunk != b.chunk || a.start + a.size <= b.start || b.start + b.size <= a.start
  }

  ghost predicate CallsOk(s: State) {
    && (forall p :: p in s.calls ==> CallOk(s, s.calls[p]))
    && (forall p, q :: p in s.calls && q in s.calls && p != q ==> Apart(s.calls[p].pc, s.calls[q].pc))
  }

  ghost predicate Inv(s: State) {
    ChainOk(s) && ChunksOk(s) && CallsOk(s)
  }

  lemma InChain(s: State, c: Id) returns (i: nat)
    requires ChainOk(s) && c in s.chain
    ensures i < |s.chain| && s.chain[i] == c && Linked(s, i) && c in s.chunks
  {
    i :| 0 <= i < |s.chain| && s.chain[i] == c;
    assert Linked(s, i);
  }

  lemma InitInv(capacity: nat)
    ensures Inv(Init(capacity))
  {
    assert Linked(Init(capacity), 0);
  }

  /** What other calls may rely on while one call takes a step. */
  ghost predicate Rely(s: State, t: State) {
    && t.capacity == s.capacity
    && (forall c :: c in s.chain ==>
        c in t.chain && c in s.chunks && c in t.chunks && t.chunks[c].tail <= s.chunks[c].tail)
  }

  lemma CallStable(s: State, t: State, call: Call)
    requires Rely(s, t) && CallOk(s, call)
    requires call.pc.Link? ==>
        call.pc.spare !in t.chain && call.pc.spare in t.chunks && t.chunks[call.pc.spare] == s.chunks[call.pc.spare]
    ensures CallOk(t, call)
  {
  }

  /** Puts the parts together: only call `p` has moved. */
  lemma Assemble(s: State, t: State, p: Pid)
    requires Inv(s) && ChainOk(t) && ChunksOk(t) && Rely(s, t)
    requires p in t.calls && t.calls == s.calls[p := t.calls[p]] && CallOk(t, t.calls[p])
    requires forall q :: q in s.calls && q != p ==>
        Apart(t.calls[p].pc, s.calls[q].pc) && Apart(s.calls[q].pc, t.calls[p].pc)
    requires forall q :: q in s.calls && q != p && s.calls[q].pc.Link? ==>
               var f := s.calls[q].pc.spare;
               f !in t.chain && f in s.chunks && f in t.chunks && t.chunks[f] == s.chunks[f]
    ensures Inv(t)
  {
    forall q | q in t.calls ensures CallOk(t, t.calls[q]) {
      if q != p { CallStable(s, t, s.calls[q]); }
    }
  }

  /** The chain stays the same when only tails move. */
  lemma SameChain(s: State, t: State)
    requires ChainOk(s) && t.chain == s.chain
    requires forall c :: c in s.chain ==> c in s.chunks && c in t.chunks && t.chunks[c].next == s.chunks[c].next
    ensures ChainOk(t)
  {
    forall i | 0 <= i < |t.chain| ensures Linked(t, i) {
      assert Linked(s, i);
    }
  }

  lemma ChainThere(s: State)
    requires ChainOk(s)
    ensures forall c :: c in s.chain ==> c in s.chunks
  {
    forall c | c in s.chain ensures c in s.chunks { var i := InChain(s, c); }
  }

  lemma BeginStep(s: State, p: Pid, size: nat)
    requires Inv(s) && p !in s.calls
    ensures Inv(After(s, p, Begin(size)))
  {
    var t := After(s, p, Begin(size));
    ChainThere(s);
    SameChain(s, t);
    Assemble(s, t, p);
  }

  lemma CheckStep(s: State, p: Pid)
    requires Inv(s) && Enabled(s, p, Go) && s.calls[p].pc.Check?
    ensures Inv(After(s, p, Go))
  {
    var t := After(s, p, Go);
    ChainThere(s);
    SameChain(s, t);
    Assemble(s, t, p);
  }

  /** A block cut off the tail lies below every block of the chunk. */
  lemma SubStep(s: State, p: Pid)
    requires Inv(s) && Enabled(s, p, Go) && s.calls[p].pc.Sub?
    ensures Inv(After(s, p, Go))
  {
    var t := After(s, p, Go);
    assert CallOk(s, s.calls[p]);
    ChainThere(s);
    SameChain(s, t);
    forall q | q in s.calls && q != p
      ensures Apart(t.calls[p].pc, s.calls[q].pc) && Apart(s.calls[q].pc, t.calls[p].pc)
    {
      assert CallOk(s, s.calls[q]);
    }
    forall q | q in s.calls ensures CallOk(s, s.calls[q]) { }
    Assemble(s, t, p);
  }

  lemma LookStep(s: State, p: Pid)
    requires Inv(s) && Enabled(s, p, Go) && s.calls[p].pc.Look?
    ensures Inv(After(s, p, Go))
  {
    var t := After(s, p, Go);
    var at := s.calls[p].pc.at;
    assert CallOk(s, s.calls[p]);
    ChainThere(s);
    assert s.unused !in s.chunks;
    SameChain(s, t);
    forall q | q in s.calls ensures CallOk(s, s.calls[q]) { }
    var i := InChain(s, at);
    Assemble(s, t, p);
  }

  lemma LinkStep(s: State, p: Pid)
    requires Inv(s) && Enabled(s, p, Go) && s.calls[p].pc.Link?
    ensures Inv(After(s, p, Go))
  {
    var t := After(s, p, Go);
    var at, spare := s.calls[p].pc.at, s.calls[p].pc.spare;
    assert CallOk(s, s.calls[p]);
    ChainThere(s);
    var k := InChain(s, at);
    if s.chunks[at].next.None? {
      assert k == |s.chain| - 1;
      forall i | 0 <= i < |t.chain| ensures Linked(t, i) {
        if i < |s.chain| { assert Linked(s, i); }
      }
    } else {
      SameChain(s, t);
    }
    forall q | q in s.calls ensures CallOk(s, s.calls[q]) { }
    Assemble(s, t, p);
  }

  lemma StepInv(s: State, p: Pid, step: Step)
    requires Inv(s) && Enabled(s, p, step)
    ensures Inv(After(s, p, step))
  {
    match step
    case Begin(size) => BeginStep(s, p, size);
    case Go =>
      match s.calls[p].pc
      case Check(_) => CheckStep(s, p);
      case Sub(_) => SubStep(s, p);
      case Look(_) => LookStep(s, p);
      case Link(_, _) => LinkStep(s, p);
  }

  lemma {:induction false} RunInv(states: seq<State>, i: nat)
    requires Run(states) && i < |states|
    ensures Inv(states[i])
  {
    if i == 0 {
      InitInv(states[0].capacity);
    } else {
      RunInv(states, i - 1);
      assert StepAt(states, i - 1);
      var p, step :| Enabled(states[i - 1], p, step) && states[i] == After(states[i - 1], p, step);
      StepInv(states[i - 1], p, step);
    }
  }

  // ----- what every run keeps -----------------------------------------------------------------

  /** Blocks that have been returned lie inside their chunks and do not overlap. */
  lemma BlocksApart(states: seq<State>, i: nat, p: Pid, q: Pid)
    requires Run(states) && i < |states| && p in states[i].calls && q in states[i].calls && p != q
    requires states[i].calls[p].pc.Done? && states[i].calls[q].pc.Done?
    ensures var a, b := states[i].calls[p].pc.block, states[i].calls[q].pc.block;
            && Disjoint(a, b) && a.size == states[i].calls[p].size
            && 0 <= a.start && a.start + a.size <= states[i].capacity
  {
    RunInv(states, i);
    assert CallOk(states[i], states[i].calls[p]);
  }

  /** No call ever touches a chunk that was given back, and every unfinished call can go on. */
  lemma NeverStuck(states: seq<State>, i: nat, p: Pid)
    requires Run(states) && i < |states| && p in states[i].calls && !states[i].calls[p].pc.Done?
    ensures Enabled(states[i], p, Go) && states[i].calls[p].pc.at !in states[i].freed
  {
    RunInv(states, i);
    assert CallOk(states[i], states[i].calls[p]);
    ChainThere(states[i]);
  }

  /** A chunk that has a successor keeps it: at most one is ever linked. */
  lemma {:induction false} SuccessorStays(states: seq<State>, i: nat, j: nat, c: Id)
    requires Run(states) && i <= j < |states| && c in states[i].chain
    ensures c in states[i].chunks && c in states[j].chain && c in states[j].chunks
    ensures states[i].chunks[c].next.Some? ==> states[j].chunks[c].next == states[i].chunks[c].next
    decreases j
  {
    RunInv(states, j);
    RunInv(states, i);
    ChainThere(states[i]);
    if i < j {
      SuccessorStays(states, i, j - 1, c);
      RunInv(states, j - 1);
      assert StepAt(states, j - 1);
      var p, step :| Enabled(states[j - 1], p, step) && states[j] == After(states[j - 1], p, step);
      SuccessorStep(states[j - 1], p, step, c);
    }
  }

  lemma SuccessorStep(s: State, p: Pid, step: Step, c: Id)
    requires Inv(s) && Enabled(s, p, step) && c in s.chain && c in s.chunks
    ensures var t := After(s, p, step);
            c in t.chain && c in t.chunks && (s.chunks[c].next.Some? ==> t.chunks[c].next == s.chunks[c].next)
  {
    if step.Go? { assert CallOk(s, s.calls[p]); }
  }

  /** A request that is larger than a chunk is never served. */
  lemma TooLarge(states: seq<State>, i: nat, p: Pid)
    requires Run(states) && i < |states| && p in states[i].calls && states[i].capacity < states[i].calls[p].size
    ensures !states[i].calls[p].pc.Done?
  {
    RunInv(states, i);
    assert CallOk(states[i], states[i].calls[p]);
  }

  // ----- a call that runs alone ---------------------------------------------------------------

  /** The steps from the check of the i-th chunk on. */
  function Cost(s: State, size: nat, i: nat): nat
    requires i < |s.chain|
    decreases |s.chain| - i
  {
    if s.chain[i] in s.chunks && s.chunks[s.chain[i]].tail >= size then 2
    else if i + 1 == |s.chain| then 6 else 3 + Cost(s, size, i + 1)
  }

  function Place(chain: seq<Id>, c: Id): (i: nat)
    requires c in chain
    ensures i < |chain| && chain[i] == c
  {
    if chain[0] == c then 0 else 1 + Place(chain[1..], c)
  }

  ghost function Rank(s: State, call: Call): nat {
    if call.pc.Done? || call.pc.at !in s.chain then 0 else
    var i := Place(s.chain, call.pc.at);
    var onward := if i + 1 == |s.chain| then 2 else Cost(s, call.size, i + 1);
    match call.pc
    case Check(_) => Cost(s, call.size, i)
    case Sub(_) => Cost(s, call.size, i) - 1
    case Look(_) => if i + 1 == |s.chain| then 4 else 1 + onward
    case Link(_, _) => 1 + onward
  }

  lemma PlaceIs(s: State, i: nat)
    requires ChainOk(s) && i < |s.chain|
    ensures Place(s.chain, s.chain[i]) == i
  {
  }

  /** Costs look only at the chunks from `i` on. */
  lemma {:induction false} CostSame(s: State, t: State, size: nat, i: nat)
    requires i < |s.chain| && t.chain == s.chain
    requires forall j :: i <= j < |s.chain| ==>
        s.chain[j] in s.chunks && s.chain[j] in t.chunks && t.chunks[s.chain[j]].tail == s.chunks[s.chain[j]].tail
    ensures Cost(t, size, i) == Cost(s, size, i)
    decreases |s.chain| - i
  {
    if i + 1 < |s.chain| { CostSame(s, t, size, i + 1); }
  }

  lemma AllThere(s: State, i: nat)
    requires ChainOk(s) && i < |s.chain|
    ensures s.chain[i] in s.chunks
  {
    assert Linked(s, i);
  }

  lemma CheckRank(s: State, p: Pid)
    requires Inv(s) && Enabled(s, p, Go) && s.calls[p].pc.Check?
    ensures Rank(After(s, p, Go), After(s, p, Go).calls[p]) < Rank(s, s.calls[p])
  {
    var t, at, size := After(s, p, Go), s.calls[p].pc.at, s.calls[p].size;
    assert CallOk(s, s.calls[p]);
    ChainThere(s);
    var i := Place(s.chain, at);
    forall j | i <= j < |s.chain| ensures s.chain[j] in s.chunks { AllThere(s, j); }
    CostSame(s, t, size, i);
    if i + 1 < |s.chain| { CostSame(s, t, size, i + 1); }
  }

  lemma SubRank(s: State, p: Pid)
    requires Inv(s) && Enabled(s, p, Go) && s.calls[p].pc.Sub?
    ensures Rank(After(s, p, Go), After(s, p, Go).calls[p]) < Rank(s, s.calls[p])
  {
    var t, at, size := After(s, p, Go), s.calls[p].pc.at, s.calls[p].size;
    assert CallOk(s, s.calls[p]);
    var i := Place(s.chain, at);
    forall j | i < j < |s.chain| ensures s.chain[j] in s.chunks { AllThere(s, j); }
    if i + 1 < |s.chain| { CostSame(s, t, size, i + 1); }
  }

  lemma LookRank(s: State, p: Pid)
    requires Inv(s) && Enabled(s, p, Go) && s.calls[p].pc.Look?
    ensures Rank(After(s, p, Go), After(s, p, Go).calls[p]) < Rank(s, s.calls[p])
  {
    var t, at, size := After(s, p, Go), s.calls[p].pc.at, s.calls[p].size;
    assert CallOk(s, s.calls[p]);
    var i := Place(s.chain, at);
    assert Linked(s, i);
    forall j | i < j < |s.chain| ensures s.chain[j] in s.chunks { AllThere(s, j); }
    if i + 1 < |s.chain| {
      CostSame(s, t, size, i + 1);
      PlaceIs(s, i + 1);
    }
  }

  lemma LinkRank(s: State, p: Pid)
    requires Inv(s) && Enabled(s, p, Go) && s.calls[p].pc.Link? && s.calls[p].size <= s.capacity
    ensures Rank(After(s, p, Go), After(s, p, Go).calls[p]) < Rank(s, s.calls[p])
  {
    assert CallOk(s, s.calls[p]);
    StepInv(s, p, Go);
    var i := Place(s.chain, s.calls[p].pc.at);
    assert Linked(s, i);
    if i + 1 == |s.chain| {
      PlaceIs(After(s, p, Go), i + 1);
    } else {
      LostRank(s, p, i);
    }
  }

  /** Another call has linked a successor: go on with that. */
  lemma LostRank(s: State, p: Pid, i: nat)
    requires Inv(s) && Enabled(s, p, Go) && Inv(After(s, p, Go)) && s.calls[p].pc.Link?
    requires s.calls[p].pc.at in s.chain && i == Place(s.chain, s.calls[p].pc.at) && i + 1 < |s.chain|
    ensures Rank(After(s, p, Go), After(s, p, Go).calls[p]) < Rank(s, s.calls[p])
  {
    var t := After(s, p, Go);
    assert Linked(s, i);
    forall j | i < j < |s.chain| ensures s.chain[j] in s.chunks && s.chain[j] in t.chunks {
      AllThere(s, j);
      AllThere(t, j);
    }
    CostSame(s, t, s.calls[p].size, i + 1);
    PlaceIs(s, i + 1);
  }

  /** Every step of a request that fits into a chunk lowers the rank, whatever state it starts in. */
  lemma GoRank(s: State, p: Pid)
    requires Inv(s) && Enabled(s, p, Go) && s.calls[p].size <= s.capacity
    ensures Inv(After(s, p, Go)) && p in After(s, p, Go).calls && After(s, p, Go).calls[p].size == s.calls[p].size
    ensures After(s, p, Go).capacity == s.capacity
    ensures Rank(After(s, p, Go), After(s, p, Go).calls[p]) < Rank(s, s.calls[p])
  {
    StepInv(s, p, Go);
    match s.calls[p].pc
    case Check(_) => CheckRank(s, p);
    case Sub(_) => SubRank(s, p);
    case Look(_) => LookRank(s, p);
    case Link(_, _) => LinkRank(s, p);
  }

  ghost predicate SoloStep(states: seq<State>, p: Pid, i: nat)
    requires i + 1 < |states|
  {
    Enabled(states[i], p, Go) && states[i + 1] == After(states[i], p, Go)
  }

  ghost predicate Solo(states: seq<State>, p: Pid) {
    states != [] && forall i {:trigger SoloStep(states, p, i)} :: 0 <= i < |states| - 1 ==> SoloStep(states, p, i)
  }

  /** A request that fits takes at most as many steps alone as its rank says. */
  lemma {:induction false} SoloBounded(states: seq<State>, p: Pid)
    requires Solo(states, p) && Inv(states[0]) && p in states[0].calls && states[0].calls[p].size <= states[0].capacity
    ensures |states| - 1 <= Rank(states[0], states[0].calls[p])
    decreases |states|
  {
    if |states| > 1 {
      assert SoloStep(states, p, 0);
      GoRank(states[0], p);
      var rest := states[1..];
      forall i {:trigger SoloStep(rest, p, i)} | 0 <= i < |rest| - 1 ensures SoloStep(rest, p, i) {
        assert SoloStep(states, p, i + 1);
      }
      SoloBounded(rest, p);
    }
  }

  lemma CanGo(s: State, p: Pid)
    requires Inv(s) && p in s.calls && !s.calls[p].pc.Done?
    ensures Enabled(s, p, Go)
  {
    assert CallOk(s, s.calls[p]);
    ChainThere(s);
  }

  lemma SoloPrepend(s: State, p: Pid, rest: seq<State>)
    requires Solo(rest, p) && Enabled(s, p, Go) && rest[0] == After(s, p, Go)
    ensures Solo([s] + rest, p)
  {
    var states := [s] + rest;
    forall i {:trigger SoloStep(states, p, i)} | 0 <= i < |states| - 1 ensures SoloStep(states, p, i) {
      if i > 0 { assert SoloStep(rest, p, i - 1); }
    }
  }

  /** From every reachable state a request that runs alone is served if it fits into a chunk; by
      `TooLarge` it is not served otherwise. */
  lemma {:induction false} SoloFinishes(s: State, p: Pid) returns (states: seq<State>)
    requires Inv(s) && p in s.calls && s.calls[p].size <= s.capacity
    ensures Solo(states, p) && states[0] == s && p in states[|states| - 1].calls
    ensures states[|states| - 1].calls[p].pc.Done?
    decreases Rank(s, s.calls[p])
  {
    if s.calls[p].pc.Done? {
      states := [s];
    } else {
      CanGo(s, p);
      GoRank(s, p);
      var rest := SoloFinishes(After(s, p, Go), p);
      states := [s] + rest;
      SoloPrepend(s, p, rest);
    }
  }
}
