/** The lock-free stack of recycled node IDs: one pusher, any number of poppers, a top pointer with a
    version. Loads, stores, exchanges and CASes of the top pointer, and reads and writes of a slot, are
    steps of their own. */
module FreeIdStack {
  type Item = int
  type Pid = nat

  /** `Null` is a null pointer (its version is 0 and is never looked at); `At(-1, v)` is one slot before
      the array: the empty stack. */
  datatype Top = Null | At(index: int, version: nat)

  datatype Pusher =
    | Ready
    | Holding(index: int, version: nat, written: nat, items: seq<Item>)

  datatype Popper =
    | Idle
    | Loaded(top: Top)
    | HasRead(top: Top, item: Item)

  /** `stack` is the abstract stack; `pushed` and `popped` count what has gone in and out. */
  datatype State = State(data: seq<Item>, top: Top, pusher: Pusher, poppers: map<Pid, Popper>,
                         stack: seq<Item>, pushed: multiset<Item>, popped: multiset<Item>)

  datatype Step =
    | Exchange(items: seq<Item>)
    | Write
    | Store
    | Load(pid: Pid)
    | Empty(pid: Pid)
    | Read(pid: Pid)
    | PopCas(pid: Pid)
    | PopRetry(pid: Pid)

  function Init(size: nat): State {
    State(seq(size, _ => 0), At(-1, 0), Ready, map[], [], multiset{}, multiset{})
  }

  /** The array must be large enough for what is pushed: nothing checks it. */
  predicate Enabled(s: State, step: Step) {
    match step
    case Exchange(items) => s.pusher.Ready? && s.top.At? && s.top.index + |items| < |s.data|
    case Write =>
      && s.pusher.Holding? && s.pusher.written < |s.pusher.items|
      && 0 <= s.pusher.index + s.pusher.written + 1 < |s.data|
    case Store => s.pusher.Holding? && s.pusher.written == |s.pusher.items|
    case Load(pid) => pid !in s.poppers || s.poppers[pid].Idle?
    case Empty(pid) =>
      && pid in s.poppers && s.poppers[pid].Loaded?
      && (s.poppers[pid].top.Null? || s.poppers[pid].top.index < 0)
    case Read(pid) =>
      && pid in s.poppers && s.poppers[pid].Loaded? && s.poppers[pid].top.At?
      && 0 <= s.poppers[pid].top.index < |s.data|
    case PopCas(pid) => pid in s.poppers && s.poppers[pid].HasRead? && s.top == s.poppers[pid].top && s.top.At?
    case PopRetry(pid) => pid in s.poppers && s.poppers[pid].HasRead? && s.top != s.poppers[pid].top
  }

  function Front(stack: seq<Item>): seq<Item> {
    if stack == [] then [] else stack[..|stack| - 1]
  }

  function After(s: State, step: Step): State
    requires Enabled(s, step)
  {
    match step
    case Exchange(items) => s.(top := Null, pusher := Holding(s.top.index, s.top.version, 0, items))
    case Write =>
      var p := s.pusher;
      s.(data := s.data[p.index + p.written + 1 := p.items[p.written]], pusher := p.(written := p.written + 1))
    case Store =>
      var p := s.pusher;
      s.(top := At(p.index + |p.items|, p.version + 1), pusher := Ready,
         stack := s.stack + p.items, pushed := s.pushed + multiset(p.items))
    case Load(pid) => s.(poppers := s.poppers[pid := Loaded(s.top)])
    case Empty(pid) => s.(poppers := s.poppers[pid := Idle])
    case Read(pid) =>
      s.(poppers := s.poppers[pid := HasRead(s.poppers[pid].top, s.data[s.poppers[pid].top.index])])
    case PopCas(pid) =>
      s.(top := At(s.top.index - 1, s.top.version + 1), poppers := s.poppers[pid := Idle],
         stack := Front(s.stack), popped := s.popped + multiset{s.poppers[pid].item})
    case PopRetry(pid) => s.(poppers := s.poppers[pid := Loaded(s.top)])
  }

  ghost predicate Next(s: State, t: State) {
    exists step :: Enabled(s, step) && t == After(s, step)
  }

  ghost predicate Run(states: seq<State>) {
    && states != [] && states[0] == Init(|states[0].data|)
    && (forall i {:trigger StepAt(states, i)} :: 0 <= i < |states| - 1 ==> StepAt(states, i))
  }

  ghost predicate StepAt(states: seq<State>, i: nat)
    requires i + 1 < |states|
  {
    Next(states[i], states[i + 1])
  }

  // ----- the invariant ------------------------------------------------------------------------

  /** The last non-null top: the current one, or the one the pusher holds back. */
  function Latest(s: State): Top {
    if s.pusher.Holding? then At(s.pusher.index, s.pusher.version) else s.top
  }

  /** A top seen earlier has an earlier version, unless nothing has changed. */
  ghost predicate Past(top: Top, latest: Top)
    requires latest.At?
  {
    top.At? ==> -1 <= top.index && top.version <= latest.version && (top.version == latest.version ==> top == latest)
  }

  ghost predicate PopperOk(s: State, p: Popper)
    requires Latest(s).At?
  {
    match p
    case Idle => true
    case Loaded(top) => Past(top, Latest(s)) && (top.At? ==> top.index < |s.data|)
    case HasRead(top, item) =>
      && top.At? && Past(top, Latest(s)) && 0 <= top.index < |s.data|
      && (top == Latest(s) ==> item == s.data[top.index])
  }

  ghost predicate Inv(s: State) {
    && (if s.pusher.Holding? then s.top.Null? else s.top.At?)
    && Latest(s).At? && -1 <= Latest(s).index < |s.data|
    && s.stack == s.data[..Latest(s).index + 1]
    && (s.pusher.Holding? ==>
          && s.pusher.written <= |s.pusher.items| && s.pusher.index + |s.pusher.items| < |s.data|
          && s.data[s.pusher.index + 1..s.pusher.index + 1 + s.pusher.written] == s.pusher.items[..s.pusher.written])
    && (forall pid :: pid in s.poppers ==> PopperOk(s, s.poppers[pid]))
    && s.pushed == s.popped + multiset(s.stack)
  }

  lemma InitInv(size: nat)
    ensures Inv(Init(size))
  {
  }

  lemma ExchangeInv(s: State, items: seq<Item>)
    requires Inv(s) && Enabled(s, Exchange(items))
    ensures Inv(After(s, Exchange(items)))
  {
    var t := After(s, Exchange(items));
    assert Latest(t) == Latest(s);
    forall pid | pid in t.poppers ensures PopperOk(t, t.poppers[pid]) { assert PopperOk(s, s.poppers[pid]); }
  }

  lemma WriteInv(s: State)
    requires Inv(s) && Enabled(s, Write)
    ensures Inv(After(s, Write))
  {
    var t, p := After(s, Write), s.pusher;
    var slot := p.index + p.written + 1;
    assert t.data[..p.index + 1] == s.data[..p.index + 1];
    assert t.data[p.index + 1..slot + 1] == s.data[p.index + 1..slot] + [p.items[p.written]];
    assert p.items[..p.written + 1] == p.items[..p.written] + [p.items[p.written]];
    forall pid | pid in t.poppers ensures PopperOk(t, t.poppers[pid]) { assert PopperOk(s, s.poppers[pid]); }
  }

  lemma StoreInv(s: State)
    requires Inv(s) && Enabled(s, Store)
    ensures Inv(After(s, Store))
  {
    var t, p := After(s, Store), s.pusher;
    assert p.items[..p.written] == p.items;
    assert t.data[..p.index + |p.items| + 1] == s.data[..p.index + 1] + s.data[p.index + 1..p.index + 1 + |p.items|];
    forall pid | pid in t.poppers ensures PopperOk(t, t.poppers[pid]) { assert PopperOk(s, s.poppers[pid]); }
  }

  /** The value read before the CAS is the top of the stack at the CAS. */
  lemma PopIsTop(s: State, pid: Pid)
    requires Inv(s) && Enabled(s, PopCas(pid))
    ensures s.stack != [] && s.poppers[pid].item == s.stack[|s.stack| - 1]
  {
    assert PopperOk(s, s.poppers[pid]);
  }

  lemma PopInv(s: State, pid: Pid)
    requires Inv(s) && Enabled(s, PopCas(pid))
    ensures Inv(After(s, PopCas(pid)))
  {
    var t := After(s, PopCas(pid));
    PopIsTop(s, pid);
    assert s.stack == Front(s.stack) + [s.stack[|s.stack| - 1]];
    forall q | q in t.poppers ensures PopperOk(t, t.poppers[q]) {
      if q != pid { assert PopperOk(s, s.poppers[q]); }
    }
  }

  /** Only one popper moves. */
  lemma PopperMoves(s: State, pid: Pid, p: Popper)
    requires Inv(s) && PopperOk(s, p)
    ensures Inv(s.(poppers := s.poppers[pid := p]))
  {
    var t := s.(poppers := s.poppers[pid := p]);
    assert Latest(t) == Latest(s);
    forall q | q in t.poppers ensures PopperOk(t, t.poppers[q]) {
      if q != pid { assert PopperOk(s, s.poppers[q]); }
    }
  }

  lemma PopperInv(s: State, step: Step)
    requires Inv(s) && Enabled(s, step) && (step.Load? || step.Empty? || step.Read? || step.PopRetry?)
    ensures Inv(After(s, step))
  {
    var p := After(s, step).poppers[step.pid];
    if step.pid in s.poppers { assert PopperOk(s, s.poppers[step.pid]); }
    PopperMoves(s, step.pid, p);
  }

  lemma StepInv(s: State, step: Step)
    requires Inv(s) && Enabled(s, step)
    ensures Inv(After(s, step))
  {
    match step
    case Exchange(items) => ExchangeInv(s, items);
    case Write => WriteInv(s);
    case Store => StoreInv(s);
    case PopCas(pid) => PopInv(s, pid);
    case _ => PopperInv(s, step);
  }

  lemma {:induction false} RunInv(states: seq<State>, i: nat)
    requires Run(states) && i < |states|
    ensures Inv(states[i])
  {
    if i == 0 {
      InitInv(|states[0].data|);
    } else {
      RunInv(states, i - 1);
      assert StepAt(states, i - 1);
      var step :| Enabled(states[i - 1], step) && states[i] == After(states[i - 1], step);
      StepInv(states[i - 1], step);
    }
  }

  // ----- what it means ------------------------------------------------------------------------

  /** Every step acts on the abstract stack as it should: a store pushes the whole batch, a successful
      CAS pops its last element and returns it, nothing else touches it; and a pop that sees an empty
      stack (rather than a push under way) has seen it empty. */
  lemma Refines(states: seq<State>, i: nat, step: Step)
    requires Run(states) && i + 1 < |states| && Enabled(states[i], step) && states[i + 1] == After(states[i], step)
    ensures var s, t := states[i], states[i + 1];
            match step
            case Store => t.stack == s.stack + s.pusher.items
            case PopCas(pid) => s.stack == t.stack + [s.poppers[pid].item]
            case Load(_) => t.stack == s.stack && (s.top.At? && s.top.index < 0 ==> s.stack == [])
            case PopRetry(_) => t.stack == s.stack && (s.top.At? && s.top.index < 0 ==> s.stack == [])
            case _ => t.stack == s.stack
  {
    RunInv(states, i);
    if step.PopCas? {
      PopIsTop(states[i], step.pid);
    }
  }

  /** Nothing is popped more often than it was pushed, and nothing is lost. */
  lemma Conserved(states: seq<State>, i: nat)
    requires Run(states) && i < |states|
    ensures states[i].pushed == states[i].popped + multiset(states[i].stack)
    ensures states[i].popped <= states[i].pushed
  {
    RunInv(states, i);
  }

  lemma StepVersion(s: State, step: Step)
    requires Inv(s) && Enabled(s, step) && Inv(After(s, step))
    ensures Latest(After(s, step)) == Latest(s) || Latest(After(s, step)).version > Latest(s).version
  {
  }

  lemma LatestAt(states: seq<State>, i: nat)
    requires Run(states) && i < |states|
    ensures Latest(states[i]).At?
    ensures states[i].top.At? ==> Latest(states[i]) == states[i].top
    ensures i + 1 < |states| ==> Latest(states[i + 1]).At?
    ensures i + 1 < |states| ==>
        Latest(states[i + 1]) == Latest(states[i]) || Latest(states[i + 1]).version > Latest(states[i]).version
  {
    RunInv(states, i);
    if i + 1 < |states| {
      RunInv(states, i + 1);
      assert StepAt(states, i);
      var step :| Enabled(states[i], step) && states[i + 1] == After(states[i], step);
      StepVersion(states[i], step);
    }
  }

  lemma {:induction false} VersionsGrow(states: seq<State>, i: nat, j: nat)
    requires Run(states) && i <= j < |states|
    ensures Latest(states[i]).At? && Latest(states[j]).At?
    ensures Latest(states[j]) == Latest(states[i]) || Latest(states[j]).version > Latest(states[i]).version
    decreases j
  {
    LatestAt(states, i);
    if i < j {
      VersionsGrow(states, i, j - 1);
      LatestAt(states, j - 1);
    }
  }

  /** A non-null top that is seen again has not changed in between: pairs of pointer and version never
      come back. */
  lemma NeverRecurs(states: seq<State>, i: nat, m: nat, j: nat)
    requires Run(states) && i <= m <= j < |states|
    requires states[i].top.At? && states[j].top == states[i].top
    ensures Latest(states[m]) == states[i].top
  {
    LatestAt(states, i);
    LatestAt(states, j);
    VersionsGrow(states, i, m);
    VersionsGrow(states, m, j);
  }
}
