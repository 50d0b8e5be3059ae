/** Why no node is freed under a thread that may still use it, and none is freed twice. */
module EpochSafety {
  import opened Entries
  import opened Epochs

  // ----- safety -------------------------------------------------------------------------------

  ghost predicate LocalLe(s: State, u: Tid, e: nat) {
    u in s.threads && s.threads[u].inside && s.threads[u].local.Some? && s.threads[u].local.value <= e
  }

  /** Every thread still exposed to `n` published an epoch no later than `e`. */
  ghost predicate ExposedLe(s: State, n: Node, e: nat) {
    n in s.exposed && (forall u :: u in s.exposed[n] ==> LocalLe(s, u, e))
  }

  /** The scan has seen, or will see, the epoch of every thread exposed to `n`. */
  ghost predicate Watched(s: State, n: Node, todo: set<Tid>, oldest: Option<nat>) {
    n in s.exposed ==>
      forall u :: u in s.exposed[n] ==>
        || u in todo
        || (oldest.Some? && u in s.threads && s.threads[u].local.Some? && oldest.value <= s.threads[u].local.value)
  }

  ghost predicate LabelOk(s: State, l: Label) {
    l.epoch <= s.epoch && (forall n :: n in l.nodes ==> ExposedLe(s, n, l.epoch))
  }

  ghost predicate LabelWatched(s: State, l: Label, todo: set<Tid>, oldest: Option<nat>) {
    forall n :: n in l.nodes ==> Watched(s, n, todo, oldest)
  }

  ghost predicate PcOk(s: State, th: Thread) {
    match th.pc
    case Idle => true
    case Entering(e) => e <= s.epoch && !th.inside
    case Retiring(n) => n in s.exposed
    case Adding(n, e) => e <= s.epoch && ExposedLe(s, n, e) && (forall l :: l in th.labels ==> l.epoch <= e)
    case Leaving => !th.inside
    case Checking => !th.inside
    case Scanning(todo, oldest) => forall l :: l in th.labels ==> LabelWatched(s, l, todo, oldest)
    case Sweeping(oldest, _) => forall l :: l in th.labels ==> LabelWatched(s, l, {}, oldest)
  }

  ghost predicate ThreadOk(s: State, t: Tid)
    requires t in s.threads
  {
    var th := s.threads[t];
    && (if th.inside then th.local.Some? && th.local.value <= s.epoch else th.held == {})
    && (forall n :: n in th.held && n in s.exposed ==> t in s.exposed[n])
    && (forall l :: l in th.labels ==> LabelOk(s, l))
    && PcOk(s, th)
  }

  ghost predicate Safe(s: State) {
    && (forall t :: t in s.threads ==> ThreadOk(s, t))
    && (forall n, u :: n in s.exposed && u in s.exposed[n] ==> u in s.threads && s.threads[u].inside)
    && (forall n :: n in s.freed ==> n in s.exposed && s.exposed[n] == {})
  }

  // ----- what one thread's step leaves of another's -------------------------------------------

  /** Epochs only grow, exposure only shrinks, and a thread that stays exposed keeps its epoch. */
  ghost predicate Rely(s: State, r: State) {
    && s.epoch <= r.epoch
    && (forall n :: n in s.exposed ==> n in r.exposed && r.exposed[n] <= s.exposed[n])
    && (forall n, u :: n in s.exposed && n in r.exposed && u in r.exposed[n] && u in s.threads ==>
          u in r.threads && r.threads[u].inside == s.threads[u].inside && r.threads[u].local == s.threads[u].local)
  }

  lemma ExposedStable(s: State, r: State, n: Node, e: nat)
    requires Rely(s, r) && ExposedLe(s, n, e)
    ensures ExposedLe(r, n, e)
  {
    forall u | u in r.exposed[n] ensures LocalLe(r, u, e) {
      assert LocalLe(s, u, e);
    }
  }

  lemma WatchedStable(s: State, r: State, n: Node, todo: set<Tid>, oldest: Option<nat>)
    requires Rely(s, r) && n in s.exposed && Watched(s, n, todo, oldest)
    ensures Watched(r, n, todo, oldest)
  {
  }

  lemma LabelStable(s: State, r: State, l: Label)
    requires Rely(s, r) && LabelOk(s, l)
    ensures LabelOk(r, l)
    ensures forall todo, oldest :: LabelWatched(s, l, todo, oldest) ==> LabelWatched(r, l, todo, oldest)
  {
    forall n | n in l.nodes ensures ExposedLe(r, n, l.epoch) {
      ExposedStable(s, r, n, l.epoch);
    }
    forall todo, oldest | LabelWatched(s, l, todo, oldest) ensures LabelWatched(r, l, todo, oldest) {
      forall n | n in l.nodes ensures Watched(r, n, todo, oldest) {
        assert ExposedLe(s, n, l.epoch);
        WatchedStable(s, r, n, todo, oldest);
      }
    }
  }

  lemma PcStable(s: State, r: State, th: Thread)
    requires Rely(s, r) && PcOk(s, th) && (forall l :: l in th.labels ==> LabelOk(s, l))
    ensures PcOk(r, th)
  {
    match th.pc
    case Adding(n, e) => ExposedStable(s, r, n, e);
    case Scanning(todo, oldest) =>
      forall l | l in th.labels ensures LabelWatched(r, l, todo, oldest) { LabelStable(s, r, l); }
    case Sweeping(oldest, _) =>
      forall l | l in th.labels ensures LabelWatched(r, l, {}, oldest) { LabelStable(s, r, l); }
    case _ =>
  }

  lemma ThreadStable(s: State, r: State, t: Tid)
    requires Rely(s, r) && t in s.threads && ThreadOk(s, t)
    requires t in r.threads && r.threads[t] == s.threads[t]
    requires forall n :: n in s.threads[t].held && n in r.exposed ==> t in r.exposed[n]
    ensures ThreadOk(r, t)
  {
    var th := s.threads[t];
    forall l | l in th.labels ensures LabelOk(r, l) { LabelStable(s, r, l); }
    PcStable(s, r, th);
  }

  /** A step of `t` that exposes nothing new. */
  lemma Assemble(s: State, r: State, t: Tid)
    requires Safe(s) && Rely(s, r) && r.exposed.Keys == s.exposed.Keys
    requires r.threads.Keys == s.threads.Keys + {t}
    requires forall v :: v in s.threads && v != t ==> r.threads[v] == s.threads[v]
    requires forall n, v :: n in s.exposed && v in s.exposed[n] && v != t ==> v in r.exposed[n]
    requires ThreadOk(r, t)
    requires forall n :: n in r.exposed && t in r.exposed[n] ==> r.threads[t].inside
    requires forall n :: n in r.freed && n !in s.freed ==> n in s.exposed && s.exposed[n] == {}
    ensures Safe(r)
  {
    forall v | v in r.threads ensures ThreadOk(r, v) {
      if v != t { ThreadStable(s, r, v); }
    }
  }

  // ----- the steps ----------------------------------------------------------------------------

  /** Steps that change only the stepping thread's program counter, lists or pointers. */
  lemma Quiet(s: State, r: State, t: Tid)
    requires Safe(s) && t in s.threads && t in r.threads && r.threads == s.threads[t := r.threads[t]]
    requires r.exposed == s.exposed && s.epoch <= r.epoch && r.scheme == s.scheme
    requires r.threads[t].inside == s.threads[t].inside
    requires s.threads[t].inside ==> r.threads[t].local == s.threads[t].local
    ensures Rely(s, r)
  {
  }

  lemma EnterStep(s: State, t: Tid)
    requires Safe(s) && Enabled(s, t, EnterStore)
    ensures Safe(After(s, t, EnterStore))
  {
    var r := After(s, t, EnterStore);
    assert ThreadOk(s, t);
    assert Rely(s, r);
    forall l | l in r.threads[t].labels ensures LabelOk(r, l) { LabelStable(s, r, l); }
    Assemble(s, r, t);
  }

  lemma UnlinkStep(s: State, t: Tid, n: Node)
    requires Safe(s) && Enabled(s, t, Unlink(n))
    ensures Safe(After(s, t, Unlink(n)))
  {
    var r := After(s, t, Unlink(n));
    assert Rely(s, r);
    forall v | v in r.threads ensures ThreadOk(r, v) {
      assert ThreadOk(s, v);
      if v != t {
        ThreadStable(s, r, v);
      } else {
        forall l | l in s.threads[t].labels ensures LabelOk(r, l) { LabelStable(s, r, l); }
      }
    }
  }

  lemma LeaveStep(s: State, t: Tid, readonly: bool)
    requires Safe(s) && Enabled(s, t, Leave(readonly))
    ensures Safe(After(s, t, Leave(readonly)))
  {
    var r := After(s, t, Leave(readonly));
    assert ThreadOk(s, t);
    assert Rely(s, r);
    forall l | l in r.threads[t].labels ensures LabelOk(r, l) { LabelStable(s, r, l); }
    Assemble(s, r, t);
  }

  /** Restamping the head label of a list cannot make any of its nodes look older. */
  lemma AddOk(s: State, labels: seq<Label>, n: Node, e: nat)
    requires forall l :: l in labels ==> LabelOk(s, l)
    requires e <= s.epoch && ExposedLe(s, n, e)
    requires s.scheme.Art? && labels != [] ==> labels[0].epoch <= e
    ensures forall l :: l in AddNode(s.scheme, labels, n, e) ==> LabelOk(s, l)
  {
    forall l | l in AddNode(s.scheme, labels, n, e) ensures LabelOk(s, l) {
      if l !in labels {
        forall x | x in l.nodes ensures ExposedLe(s, x, e) {
          if x != n {
            assert x in labels[0].nodes && LabelOk(s, labels[0]);
            assert ExposedLe(s, x, labels[0].epoch);
            forall u | u in s.exposed[x] ensures LocalLe(s, u, e) { assert LocalLe(s, u, labels[0].epoch); }
          }
        }
      }
    }
  }

  /** A step of `t` alone that neither enters, leaves nor unlinks. */
  lemma QuietSafe(s: State, r: State, t: Tid)
    requires Safe(s) && t in s.threads && t in r.threads && r.threads == s.threads[t := r.threads[t]]
    requires r.exposed == s.exposed && s.epoch <= r.epoch && r.scheme == s.scheme
    requires r.threads[t].inside == s.threads[t].inside
    requires s.threads[t].inside ==> r.threads[t].local == s.threads[t].local
    requires forall n :: n in r.threads[t].held ==> n in s.threads[t].held || (n !in s.exposed && s.threads[t].inside)
    requires forall l :: l in r.threads[t].labels ==> LabelOk(r, l)
    requires PcOk(r, r.threads[t])
    requires forall n :: n in r.freed && n !in s.freed ==> n in s.exposed && s.exposed[n] == {}
    ensures Safe(r)
  {
    Quiet(s, r, t);
    assert ThreadOk(s, t);
    Assemble(s, r, t);
  }

  /** At the start of a scan every exposed thread is still to be read. */
  lemma ScanStart(s: State, labels: seq<Label>)
    requires Safe(s)
    ensures forall l :: l in labels ==> LabelWatched(s, l, s.threads.Keys, None)
  {
  }

  lemma ScanReadStep(s: State, t: Tid, u: Tid)
    requires Safe(s) && Enabled(s, t, ScanRead(u))
    ensures Safe(After(s, t, ScanRead(u)))
  {
    var r, th := After(s, t, ScanRead(u)), s.threads[t];
    assert ThreadOk(s, t);
    Quiet(s, r, t);
    forall l | l in th.labels
      ensures LabelOk(r, l) && LabelWatched(r, l, r.threads[t].pc.todo, r.threads[t].pc.oldest) {
      LabelStable(s, r, l);
      assert LabelWatched(r, l, th.pc.todo, th.pc.oldest);
      ReadNarrows(r, l, th.pc.todo, th.pc.oldest, u, s.threads[u].local);
    }
    QuietSafe(s, r, t);
  }

  lemma ReadNarrows(s: State, l: Label, todo: set<Tid>, oldest: Option<nat>, u: Tid, local: Option<nat>)
    requires LabelOk(s, l) && LabelWatched(s, l, todo, oldest)
    requires u in s.threads && s.threads[u].inside ==> s.threads[u].local == local
    ensures LabelWatched(s, l, todo - {u}, Earlier(oldest, local))
  {
    forall n | n in l.nodes ensures Watched(s, n, todo - {u}, Earlier(oldest, local)) {
      assert Watched(s, n, todo, oldest) && ExposedLe(s, n, l.epoch);
      if u in s.exposed[n] { assert LocalLe(s, u, l.epoch); }
    }
  }

  /** A stamp earlier than every epoch read by the scan has no thread left that was exposed. */
  lemma NoneExposed(s: State, l: Label, oldest: Option<nat>, n: Node)
    requires LabelOk(s, l) && LabelWatched(s, l, {}, oldest) && Before(l.epoch, oldest) && n in l.nodes
    ensures n in s.exposed && s.exposed[n] == {}
  {
    assert ExposedLe(s, n, l.epoch) && Watched(s, n, {}, oldest);
    forall u ensures u !in s.exposed[n] {
      assert u in s.exposed[n] ==> LocalLe(s, u, l.epoch);
    }
  }

  lemma SweepFreeStep(s: State, t: Tid)
    requires Safe(s) && Enabled(s, t, SweepFree)
    ensures Safe(After(s, t, SweepFree))
  {
    var r, th := After(s, t, SweepFree), s.threads[t];
    assert ThreadOk(s, t);
    Quiet(s, r, t);
    var l := th.labels[th.pc.at];
    assert LabelOk(s, l) && LabelWatched(s, l, {}, th.pc.oldest);
    forall n | n in r.freed && n !in s.freed ensures n in s.exposed && s.exposed[n] == {} {
      NoneExposed(s, l, th.pc.oldest, n);
    }
    forall x | x in r.threads[t].labels ensures LabelOk(r, x) && LabelWatched(r, x, {}, th.pc.oldest) {
      assert x in th.labels;
      LabelStable(s, r, x);
    }
    QuietSafe(s, r, t);
  }

  lemma RetireAddStep(s: State, t: Tid)
    requires Safe(s) && Enabled(s, t, RetireAdd)
    ensures Safe(After(s, t, RetireAdd))
  {
    var r, th := After(s, t, RetireAdd), s.threads[t];
    assert ThreadOk(s, t);
    Quiet(s, r, t);
    AddOk(s, th.labels, th.pc.n, th.pc.e);
    forall l | l in r.threads[t].labels ensures LabelOk(r, l) { LabelStable(s, r, l); }
    ScanStart(s, r.threads[t].labels);
    if r.threads[t].pc.Scanning? {
      forall l | l in r.threads[t].labels ensures LabelWatched(r, l, s.threads.Keys, None) { LabelStable(s, r, l); }
    }
    QuietSafe(s, r, t);
  }

  lemma PlainStep(s: State, t: Tid, step: Step)
    requires Safe(s) && Enabled(s, t, step)
    requires step.EnterLoad? || step.Acquire? || step.LeaveTick? || step.SweepDone?
    ensures Safe(After(s, t, step))
  {
    var r := After(s, t, step);
    assert ThreadOk(s, t);
    Quiet(s, r, t);
    forall l | l in s.threads[t].labels ensures LabelOk(r, l) { LabelStable(s, r, l); }
    QuietSafe(s, r, t);
  }

  lemma RetireLoadStep(s: State, t: Tid)
    requires Safe(s) && Enabled(s, t, RetireLoad)
    ensures Safe(After(s, t, RetireLoad))
  {
    var r, th := After(s, t, RetireLoad), s.threads[t];
    assert ThreadOk(s, t);
    Quiet(s, r, t);
    forall l | l in th.labels ensures LabelOk(r, l) { LabelStable(s, r, l); }
    forall u | u in s.exposed[th.pc.n] ensures LocalLe(r, u, s.epoch) { assert ThreadOk(s, u); }
    QuietSafe(s, r, t);
  }

  lemma LeaveCheckStep(s: State, t: Tid)
    requires Safe(s) && Enabled(s, t, LeaveCheck)
    ensures Safe(After(s, t, LeaveCheck))
  {
    var r, th := After(s, t, LeaveCheck), s.threads[t];
    assert ThreadOk(s, t);
    Quiet(s, r, t);
    ScanStart(s, th.labels);
    forall l | l in th.labels
      ensures LabelOk(r, l) && LabelWatched(r, l, s.threads.Keys, None) { LabelStable(s, r, l); }
    QuietSafe(s, r, t);
  }

  lemma SweepOnStep(s: State, t: Tid, step: Step)
    requires Safe(s) && Enabled(s, t, step) && (step.ScanDone? || step.SweepKeep?)
    ensures Safe(After(s, t, step))
  {
    var r, th := After(s, t, step), s.threads[t];
    assert ThreadOk(s, t);
    Quiet(s, r, t);
    forall l | l in th.labels ensures LabelOk(r, l) && LabelWatched(r, l, {}, th.pc.oldest) { LabelStable(s, r, l); }
    QuietSafe(s, r, t);
  }

  lemma RegisterStep(s: State, t: Tid, local: Option<nat>)
    requires Safe(s) && Enabled(s, t, Register(local))
    ensures Safe(After(s, t, Register(local)))
  {
    Assemble(s, After(s, t, Register(local)), t);
  }

  lemma TickStep(s: State, t: Tid)
    requires Safe(s) && Enabled(s, t, Tick)
    ensures Safe(After(s, t, Tick))
  {
    var r := After(s, t, Tick);
    forall v | v in r.threads ensures ThreadOk(r, v) { ThreadStable(s, r, v); }
  }

  lemma StepSafe(s: State, t: Tid, step: Step)
    requires Safe(s) && Enabled(s, t, step)
    ensures Safe(After(s, t, step))
  {
    match step
    case Register(local) => RegisterStep(s, t, local);
    case Tick => TickStep(s, t);
    case EnterStore => EnterStep(s, t);
    case Unlink(n) => UnlinkStep(s, t, n);
    case RetireAdd => RetireAddStep(s, t);
    case Leave(readonly) => LeaveStep(s, t, readonly);
    case ScanRead(u) => ScanReadStep(s, t, u);
    case SweepFree => SweepFreeStep(s, t);
    case RetireLoad => RetireLoadStep(s, t);
    case LeaveCheck => LeaveCheckStep(s, t);
    case ScanDone => SweepOnStep(s, t, step);
    case SweepKeep => SweepOnStep(s, t, step);
    case _ => PlainStep(s, t, step);
  }

  lemma {:induction false} RunSafe(states: seq<State>, i: nat)
    requires Run(states) && i < |states|
    ensures Safe(states[i])
  {
    if i > 0 {
      RunSafe(states, i - 1);
      assert Next(states[i - 1], states[i - 1 + 1]);
      var t, step :| Enabled(states[i - 1], t, step) && states[i] == After(states[i - 1], t, step);
      StepSafe(states[i - 1], t, step);
    }
  }

  /** A freed node is out of every thread's reach: no thread that was inside an operation when it was
      unlinked is still in that operation, and no thread inside holds a pointer to it. */
  lemma NoUseAfterFree(states: seq<State>, i: nat, n: Node)
    requires Run(states) && i < |states| && n in states[i].freed
    ensures n in states[i].exposed && states[i].exposed[n] == {}
    ensures forall t :: t in states[i].threads ==> n !in states[i].threads[t].held
  {
    RunSafe(states, i);
    forall t | t in states[i].threads ensures n !in states[i].threads[t].held {
      assert ThreadOk(states[i], t);
    }
  }
}
