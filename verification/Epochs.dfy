/** Epoch-based reclamation as ART's `Epoche` and the Bw-tree's `BwTreeBase` do it: threads publish the
    epoch they entered in, unlinked nodes are stamped with the current epoch and put on a list of the
    thread that unlinked them, and that thread frees what every published epoch has left behind.

    Each load and store of a shared variable is a step of its own. */
module Epochs {
  import opened Entries

  type Tid = nat
  type Node = nat

  /** Both schemes start collecting when more than `threshold` nodes are waiting. */
  datatype Scheme = Art(threshold: nat) | Bw(threshold: nat)

  const LABEL_SLOTS: nat := 32

  /** A group of retired nodes with one stamp, the latest. The Bw-tree has one node to a group. */
  datatype Label = Label(nodes: seq<Node>, epoch: nat)

  datatype Pc =
    | Idle
    | Entering(e: nat)
    | Retiring(n: Node)
    | Adding(n: Node, e: nat)
    | Leaving
    | Checking
    | Scanning(todo: set<Tid>, oldest: Option<nat>)
    | Sweeping(oldest: Option<nat>, at: nat)

  /** `local` is the published epoch (none: the maximal value). `inside` says that the thread is in an
      operation, `held` are the nodes it has pointers to. */
  datatype Thread = Thread(pc: Pc, local: Option<nat>, labels: seq<Label>, counter: nat, inside: bool, held: set<Node>)

  /** `exposed[n]` are the threads that were inside an operation when `n` was unlinked, and have been in
      that operation ever since. */
  datatype State = State(scheme: Scheme, epoch: nat, threads: map<Tid, Thread>,
                         exposed: map<Node, set<Tid>>, freed: set<Node>)

  datatype Step =
    | Register(local: Option<nat>)
    | Tick
    | EnterLoad
    | EnterStore
    | Acquire(n: Node)
    | Unlink(n: Node)
    | RetireLoad
    | RetireAdd
    | Leave(readonly: bool)
    | LeaveTick
    | LeaveCheck
    | ScanRead(u: Tid)
    | ScanDone
    | SweepFree
    | SweepKeep
    | SweepDone

  function Init(scheme: Scheme): State {
    State(scheme, 0, map[], map[], {})
  }

  // ----- lists of retired nodes ---------------------------------------------------------------

  function Flat(labels: seq<Label>): seq<Node> {
    if labels == [] then [] else labels[0].nodes + Flat(labels[1..])
  }

  /** ART fills the head label and restamps it; the Bw-tree appends at the tail. */
  function AddNode(scheme: Scheme, labels: seq<Label>, n: Node, e: nat): seq<Label> {
    if scheme.Bw? then labels + [Label([n], e)]
    else if labels != [] && |labels[0].nodes| < LABEL_SLOTS then [Label(labels[0].nodes + [n], e)] + labels[1..]
    else [Label([n], e)] + labels
  }

  /** Unpublished epochs count as later than any. */
  predicate Before(e: nat, oldest: Option<nat>) {
    oldest.None? || e < oldest.value
  }

  function Earlier(a: Option<nat>, b: Option<nat>): Option<nat> {
    if b.None? || (a.Some? && a.value <= b.value) then a else b
  }

  // ----- steps --------------------------------------------------------------------------------

  function Insiders(s: State): set<Tid> {
    set t | t in s.threads && s.threads[t].inside
  }

  function Unexpose(exposed: map<Node, set<Tid>>, t: Tid): map<Node, set<Tid>> {
    map n | n in exposed :: exposed[n] - {t}
  }

  predicate Enabled(s: State, t: Tid, step: Step) {
    if step.Register? then t !in s.threads
    else if step.Tick? then s.scheme.Bw?
    else
      && t in s.threads
      && var th := s.threads[t];
      match step
      case EnterLoad => th.pc.Idle? && !th.inside
      case EnterStore => th.pc.Entering?
      case Acquire(n) => th.pc.Idle? && th.inside && n !in s.exposed
      case Unlink(n) => th.pc.Idle? && th.inside && n !in s.exposed
      case RetireLoad => th.pc.Retiring?
      case RetireAdd => th.pc.Adding?
      case Leave(_) => th.pc.Idle? && th.inside
      case LeaveTick => th.pc.Leaving?
      case LeaveCheck => th.pc.Checking?
      case ScanRead(u) => th.pc.Scanning? && u in th.pc.todo && u in s.threads
      case ScanDone => th.pc.Scanning? && th.pc.todo == {}
      case SweepFree => th.pc.Sweeping? && th.pc.at < |th.labels| && Before(th.labels[th.pc.at].epoch, th.pc.oldest)
      case SweepKeep => th.pc.Sweeping? && th.pc.at < |th.labels| && !Before(th.labels[th.pc.at].epoch, th.pc.oldest)
      case SweepDone => th.pc.Sweeping? && th.pc.at >= |th.labels|
  }

  function Set(s: State, t: Tid, th: Thread): State {
    s.(threads := s.threads[t := th])
  }

  function After(s: State, t: Tid, step: Step): State
    requires Enabled(s, t, step)
  {
    if step.Register? then Set(s, t, Thread(Idle, step.local, [], 0, false, {}))
    else if step.Tick? then s.(epoch := s.epoch + 1)
    else
      var th := s.threads[t];
      match step
      case EnterLoad => Set(s, t, th.(pc := Entering(s.epoch)))
      case EnterStore => Set(s, t, th.(pc := Idle, local := Some(th.pc.e), inside := true))
      case Acquire(n) => Set(s, t, th.(held := th.held + {n}))
      case Unlink(n) => Set(s, t, th.(pc := Retiring(n))).(exposed := s.exposed[n := Insiders(s)])
      case RetireLoad => Set(s, t, th.(pc := Adding(th.pc.n, s.epoch)))
      case RetireAdd =>
        var labels := AddNode(s.scheme, th.labels, th.pc.n, th.pc.e);
        var collect := s.scheme.Bw? && |Flat(labels)| > s.scheme.threshold;
        Set(s, t, th.(pc := if collect then Scanning(s.threads.Keys, None) else Idle, labels := labels,
            counter := th.counter + 1))
      case Leave(readonly) =>
        var gone := th.(inside := false, held := {});
        Set(s, t, if s.scheme.Bw? then gone.(local := None) else if readonly then gone else gone.(pc := Leaving))
        .(exposed := Unexpose(s.exposed, t))
      case LeaveTick =>
        Set(s, t, th.(pc := Checking)).(epoch := if th.counter % 64 == 1 then s.epoch + 1 else s.epoch)
      case LeaveCheck =>
        if th.counter <= s.scheme.threshold then Set(s, t, th.(pc := Idle))
        else if Flat(th.labels) == [] then Set(s, t, th.(pc := Idle, counter := 0))
        else Set(s, t, th.(pc := Scanning(s.threads.Keys, None), local := None))
      case ScanRead(u) =>
        Set(s, t, th.(pc := Scanning(th.pc.todo - {u}, Earlier(th.pc.oldest, s.threads[u].local))))
      case ScanDone => Set(s, t, th.(pc := Sweeping(th.pc.oldest, 0)))
      case SweepFree =>
        Set(s, t, th.(labels := th.labels[..th.pc.at] + th.labels[th.pc.at + 1..]))
        .(freed := s.freed + set n | n in th.labels[th.pc.at].nodes)
      case SweepKeep => Set(s, t, th.(pc := if s.scheme.Bw? then Idle else Sweeping(th.pc.oldest, th.pc.at + 1)))
      case SweepDone => Set(s, t, th.(pc := Idle, counter := if s.scheme.Art? then 0 else th.counter))
  }

  ghost predicate Next(s: State, u: State) {
    exists t, step :: Enabled(s, t, step) && u == After(s, t, step)
  }

  ghost predicate Run(states: seq<State>) {
    && states != [] && states[0] == Init(states[0].scheme)
    && (forall i :: 0 <= i < |states| - 1 ==> Next(states[i], states[i + 1]))
  }
}
