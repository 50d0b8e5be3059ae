/** The lists themselves: every retired node waits in exactly one list until it is freed, exactly once;
    and the list operations as ART's `DeletionList` and the Bw-tree's garbage chain run them. */
module EpochLists {
  import opened Entries
  import opened Epochs

  function Bag(labels: seq<Label>): multiset<Node> {
    multiset(Flat(labels))
  }

  lemma {:induction false} FlatSplit(a: seq<Label>, b: seq<Label>)
    ensures Flat(a + b) == Flat(a) + Flat(b)
  {
    if a == [] {
      assert a + b == b;
    } else {
      assert (a + b)[1..] == a[1..] + b;
      FlatSplit(a[1..], b);
      assert (a[0].nodes + Flat(a[1..])) + Flat(b) == a[0].nodes + (Flat(a[1..]) + Flat(b));
    }
  }

  lemma FlatOne(l: Label)
    ensures Flat([l]) == l.nodes
  {
    assert [l][1..] == [];
  }

  lemma BagAdd(scheme: Scheme, labels: seq<Label>, n: Node, e: nat)
    ensures Bag(AddNode(scheme, labels, n, e)) == Bag(labels) + multiset{n}
  {
    var r := AddNode(scheme, labels, n, e);
    if scheme.Bw? {
      FlatSplit(labels, [Label([n], e)]);
      FlatOne(Label([n], e));
    } else if labels != [] && |labels[0].nodes| < LABEL_SLOTS {
      assert r[1..] == labels[1..];
    } else {
      assert r[1..] == labels;
    }
  }

  lemma BagRemove(labels: seq<Label>, i: nat)
    requires i < |labels|
    ensures Bag(labels) == Bag(labels[..i] + labels[i + 1..]) + multiset(labels[i].nodes)
  {
    var a, b := labels[..i], labels[i + 1..];
    assert labels == a + ([labels[i]] + b);
    FlatSplit(a, [labels[i]] + b);
    FlatSplit([labels[i]], b);
    FlatSplit(a, b);
    FlatOne(labels[i]);
  }

  /** All nodes a thread is responsible for: listed, or between unlink and listing. */
  function Owned(th: Thread): multiset<Node> {
    var pending := Pending(th.pc);
    Bag(th.labels) + if pending.Some? then multiset{pending.value} else multiset{}
  }

  /** How often thread `t` owns node `n`. */
  type Ownership = (Tid, Node) -> nat

  function Owns(s: State): Ownership {
    (t, n) => if t in s.threads then Owned(s.threads[t])[n] else 0
  }

  ghost predicate Kept(own: Ownership, n: Node) {
    exists t :: own(t, n) == 1
  }

  /** Every unlinked node is freed, or owned by exactly one thread, once. */
  ghost predicate OnceIn(own: Ownership, unlinked: set<Node>, freed: set<Node>) {
    && freed <= unlinked
    && (forall t, n :: own(t, n) <= 1 && (own(t, n) == 1 ==> n in unlinked && n !in freed))
    && (forall t, u, n :: own(t, n) == 1 && own(u, n) == 1 ==> t == u)
    && (forall n :: n in unlinked ==> n in freed || Kept(own, n))
  }

  ghost predicate Once(s: State) {
    OnceIn(Owns(s), s.exposed.Keys, s.freed)
  }

  lemma Gain(own: Ownership, own': Ownership, unlinked: set<Node>, freed: set<Node>, t: Tid, n: Node)
    requires OnceIn(own, unlinked, freed) && n !in unlinked
    requires forall u, x :: own'(u, x) == own(u, x) + (if u == t && x == n then 1 else 0)
    ensures OnceIn(own', unlinked + {n}, freed)
  {
    forall u ensures own(u, n) == 0 {}
    forall x | x in unlinked + {n} ensures x in freed || Kept(own', x) {
      if x == n {
        assert own'(t, n) == 1;
      } else if x !in freed {
        assert Kept(own, x);
        var u :| own(u, x) == 1;
        assert own'(u, x) == 1;
      }
    }
  }

  lemma Give(own: Ownership, own': Ownership, unlinked: set<Node>, freed: set<Node>, t: Tid, bag: multiset<Node>)
    requires OnceIn(own, unlinked, freed)
    requires forall u, x :: own(u, x) == own'(u, x) + (if u == t then bag[x] else 0)
    ensures forall n :: n in bag ==> n !in freed && bag[n] == 1
    ensures OnceIn(own', unlinked, freed + set n | n in bag)
  {
    forall n | n in bag ensures n !in freed && bag[n] == 1 && own(t, n) == 1 && own'(t, n) == 0 {
      assert own(t, n) == own'(t, n) + bag[n];
    }
    forall u, x | own'(u, x) == 1 ensures own(u, x) == 1 && x !in bag {
      assert own(u, x) == 1;
    }
    forall x | x in unlinked ensures x in freed + (set n | n in bag) || Kept(own', x) {
      if x !in freed && x !in bag {
        assert Kept(own, x);
        var u :| own(u, x) == 1;
        assert own'(u, x) == 1;
      }
    }
  }

  lemma Keep(own: Ownership, own': Ownership, unlinked: set<Node>, freed: set<Node>)
    requires OnceIn(own, unlinked, freed) && (forall u, x :: own'(u, x) == own(u, x))
    ensures OnceIn(own', unlinked, freed)
  {
    forall x | x in unlinked ensures x in freed || Kept(own', x) {
      if x !in freed {
        assert Kept(own, x);
        var u :| own(u, x) == 1;
        assert own'(u, x) == 1;
      }
    }
  }

  lemma FreeOnce(s: State, t: Tid)
    requires Once(s) && Enabled(s, t, SweepFree)
    ensures Once(After(s, t, SweepFree))
    ensures forall n :: n in s.threads[t].labels[s.threads[t].pc.at].nodes ==>
              n !in s.freed && multiset(s.threads[t].labels[s.threads[t].pc.at].nodes)[n] == 1
  {
    var r, th := After(s, t, SweepFree), s.threads[t];
    var nodes := th.labels[th.pc.at].nodes;
    OwnsFree(s, t, r);
    Give(Owns(s), Owns(r), s.exposed.Keys, s.freed, t, multiset(nodes));
    BagSet(nodes);
  }

  lemma BagSet(nodes: seq<Node>)
    ensures (set n | n in multiset(nodes)) == (set n | n in nodes)
    ensures forall n :: n in nodes ==> n in multiset(nodes)
  {
  }

  lemma OwnsFree(s: State, t: Tid, r: State)
    requires Enabled(s, t, SweepFree) && r == After(s, t, SweepFree)
    ensures forall u, x ::
        Owns(s)(u, x) ==
        Owns(r)(u, x) + (if u == t then multiset(s.threads[t].labels[s.threads[t].pc.at].nodes)[x] else 0)
  {
    OwnedFree(s.threads[t], r.threads[t]);
    forall u, x ensures Owns(s)(u, x) ==
        Owns(r)(u, x) + (if u == t then multiset(s.threads[t].labels[s.threads[t].pc.at].nodes)[x] else 0) {
      OwnsAt(s, r, t, u, x);
    }
  }

  lemma OwnedFree(th: Thread, th': Thread)
    requires th.pc.Sweeping? && th.pc.at < |th.labels|
    requires th' == th.(labels := th.labels[..th.pc.at] + th.labels[th.pc.at + 1..])
    ensures forall x :: Owned(th)[x] == Owned(th')[x] + multiset(th.labels[th.pc.at].nodes)[x]
  {
    BagRemove(th.labels, th.pc.at);
  }

  /** Only `t`'s record changes. */
  lemma OwnsAt(s: State, r: State, t: Tid, u: Tid, x: Node)
    requires t in r.threads && r.threads == s.threads[t := r.threads[t]]
    ensures Owns(r)(u, x) == if u == t then Owned(r.threads[t])[x] else Owns(s)(u, x)
  {
  }

  lemma UnlinkOnce(s: State, t: Tid, n: Node)
    requires Once(s) && Enabled(s, t, Unlink(n))
    ensures Once(After(s, t, Unlink(n)))
  {
    var r := After(s, t, Unlink(n));
    UnlinkOwned(s.threads[t], n);
    forall u, x ensures Owns(r)(u, x) == Owns(s)(u, x) + (if u == t && x == n then 1 else 0) {
      OwnsAt(s, r, t, u, x);
    }
    Gain(Owns(s), Owns(r), s.exposed.Keys, s.freed, t, n);
    assert r.exposed.Keys == s.exposed.Keys + {n};
  }

  lemma UnlinkOwned(th: Thread, n: Node)
    requires th.pc.Idle?
    ensures forall x :: Owned(th.(pc := Retiring(n)))[x] == Owned(th)[x] + (if x == n then 1 else 0)
  {
  }

  /** Between unlink and listing a node counts as owned. */
  function Pending(pc: Pc): Option<Node> {
    if pc.Retiring? || pc.Adding? then Some(pc.n) else None
  }

  lemma AddOwned(s: State, t: Tid)
    requires Enabled(s, t, RetireAdd)
    ensures Owned(After(s, t, RetireAdd).threads[t]) == Owned(s.threads[t])
  {
    var th, th' := s.threads[t], After(s, t, RetireAdd).threads[t];
    BagAdd(s.scheme, th.labels, th.pc.n, th.pc.e);
    assert Owned(th') == Bag(th'.labels) + multiset{};
  }

  lemma UnexposeKeys(exposed: map<Node, set<Tid>>, t: Tid)
    ensures Unexpose(exposed, t).Keys == exposed.Keys
  {
  }

  lemma KeepOwned(s: State, t: Tid, step: Step)
    requires Enabled(s, t, step)
    requires !step.Unlink? && !step.SweepFree? && !step.Register? && !step.Tick? && !step.RetireAdd?
    ensures var r := After(s, t, step);
            && t in r.threads && r.threads[t].labels == s.threads[t].labels
            && Pending(r.threads[t].pc) == Pending(s.threads[t].pc)
  {
  }

  lemma KeepRest(s: State, t: Tid, step: Step)
    requires Enabled(s, t, step) && !step.Unlink? && !step.SweepFree? && !step.Register? && !step.Tick?
    ensures var r := After(s, t, step);
            && t in r.threads && r.threads == s.threads[t := r.threads[t]]
            && r.exposed.Keys == s.exposed.Keys && r.freed == s.freed
  {
    UnexposeKeys(s.exposed, t);
  }

  lemma KeepOnce(s: State, t: Tid, step: Step)
    requires Once(s) && Enabled(s, t, step) && !step.Unlink? && !step.SweepFree? && !step.Register? && !step.Tick?
    ensures Once(After(s, t, step))
  {
    var r := After(s, t, step);
    KeepRest(s, t, step);
    if step.RetireAdd? { AddOwned(s, t); } else { KeepOwned(s, t, step); }
    forall u, x ensures Owns(r)(u, x) == Owns(s)(u, x) { OwnsAt(s, r, t, u, x); }
    Keep(Owns(s), Owns(r), s.exposed.Keys, s.freed);
  }

  lemma JoinOnce(s: State, t: Tid, step: Step)
    requires Once(s) && Enabled(s, t, step) && (step.Register? || step.Tick?)
    ensures Once(After(s, t, step))
  {
    var r := After(s, t, step);
    forall u, x ensures Owns(r)(u, x) == Owns(s)(u, x) {
      if step.Register? { OwnsAt(s, r, t, u, x); }
    }
    Keep(Owns(s), Owns(r), s.exposed.Keys, s.freed);
  }

  lemma StepOnce(s: State, t: Tid, step: Step)
    requires Once(s) && Enabled(s, t, step)
    ensures Once(After(s, t, step))
  {
    match step
    case Unlink(n) => UnlinkOnce(s, t, n);
    case SweepFree => FreeOnce(s, t);
    case Register(_) => JoinOnce(s, t, step);
    case Tick => JoinOnce(s, t, step);
    case _ => KeepOnce(s, t, step);
  }

  lemma {:induction false} RunOnce(states: seq<State>, i: nat)
    requires Run(states) && i < |states|
    ensures Once(states[i])
  {
    if i > 0 {
      RunOnce(states, i - 1);
      assert Next(states[i - 1], states[i - 1 + 1]);
      var t, step :| Enabled(states[i - 1], t, step) && states[i] == After(states[i - 1], t, step);
      StepOnce(states[i - 1], t, step);
    }
  }

  /** No node is freed twice: what a sweep frees was not free before and is listed once. Nor is any
      unlinked node forgotten. */
  lemma FreedOnce(states: seq<State>, i: nat, t: Tid)
    requires Run(states) && i < |states| && Enabled(states[i], t, SweepFree)
    ensures var l := states[i].threads[t].labels[states[i].threads[t].pc.at];
            forall n :: n in l.nodes ==> n !in states[i].freed && multiset(l.nodes)[n] == 1
  {
    RunOnce(states, i);
    FreeOnce(states[i], t);
  }

  // ----- the lists as objects -----------------------------------------------------------------

  /** What ART's sweep leaves of a list: labels stamped before `oldest` go, wherever they stand. */
  function Survivors(labels: seq<Label>, oldest: Option<nat>): seq<Label> {
    if labels == [] then []
    else if Before(labels[0].epoch, oldest) then Survivors(labels[1..], oldest)
    else [labels[0]] + Survivors(labels[1..], oldest)
  }

  /** What the Bw-tree's sweep leaves: it stops at the first node that may still be in use. */
  function Waiting(labels: seq<Label>, oldest: Option<nat>): seq<Label> {
    if labels != [] && Before(labels[0].epoch, oldest) then Waiting(labels[1..], oldest) else labels
  }

  lemma {:induction false} SurvivorsJoin(a: seq<Label>, b: seq<Label>, oldest: Option<nat>)
    ensures Survivors(a + b, oldest) == Survivors(a, oldest) + Survivors(b, oldest)
  {
    if a == [] {
      assert a + b == b;
    } else {
      assert (a + b)[1..] == a[1..] + b;
      SurvivorsJoin(a[1..], b, oldest);
    }
  }

  class DeletionList {
    var labels: seq<Label>
    var count: nat
    var added: nat
    var deleted: nat

    ghost predicate Valid() reads this {
      count == |Flat(labels)| && added == deleted + count
    }

    constructor ()
      ensures Valid() && labels == []
    {
      labels, count, added, deleted := [], 0, 0, 0;
    }

    method Add(n: Node, e: nat)
      requires Valid()
      modifies this
      ensures Valid() && labels == AddNode(Art(0), old(labels), n, e) && added == old(added) + 1
    {
      BagAdd(Art(0), labels, n, e);
      count := count + 1;
      if labels != [] && |labels[0].nodes| < LABEL_SLOTS {
        labels := [Label(labels[0].nodes + [n], e)] + labels[1..];
      } else {
        labels := [Label([n], e)] + labels;
      }
      added := added + 1;
      assert |Bag(labels)| == |Flat(labels)|;
      assert |Bag(old(labels))| == |Flat(old(labels))|;
    }

    method Remove(i: nat)
      requires Valid() && i < |labels|
      modifies this
      ensures Valid() && labels == old(labels[..i] + labels[i + 1..]) && added == old(added)
    {
      BagRemove(labels, i);
      assert |Bag(labels)| == |Flat(labels)|;
      assert |Bag(labels[..i] + labels[i + 1..])| == |Flat(labels[..i] + labels[i + 1..])|;
      assert |multiset(labels[i].nodes)| == |labels[i].nodes|;
      count := count - |labels[i].nodes|;
      deleted := deleted + |labels[i].nodes|;
      labels := labels[..i] + labels[i + 1..];
    }

    /** The sweep of exitEpocheAndCleanup: frees every label stamped before the oldest local epoch. */
    method Sweep(oldest: Option<nat>) returns (freed: seq<Node>)
      requires Valid()
      modifies this
      ensures Valid() && labels == Survivors(old(labels), oldest) && added == old(added)
      ensures multiset(freed) + Bag(labels) == old(Bag(labels))
    {
      freed := [];
      var i := 0;
      while i < |labels|
        invariant Valid() && added == old(added)
        invariant Swept(labels, i, freed, old(labels), oldest)
        decreases |labels| - i
      {
        SweepOne(labels, i, freed, old(labels), oldest);
        if Before(labels[i].epoch, oldest) {
          freed := freed + labels[i].nodes;
          Remove(i);
        } else {
          i := i + 1;
        }
      }
      assert labels[..i] == labels;
    }
  }

  /** The sweep has decided on the first `i` labels. */
  ghost predicate Swept(labels: seq<Label>, i: nat, freed: seq<Node>, all: seq<Label>, oldest: Option<nat>) {
    && i <= |labels| && labels[..i] == Survivors(labels[..i], oldest)
    && Survivors(labels, oldest) == Survivors(all, oldest)
    && multiset(freed) + Bag(labels) == Bag(all)
  }

  lemma SweepOne(labels: seq<Label>, i: nat, freed: seq<Node>, all: seq<Label>, oldest: Option<nat>)
    requires i < |labels| && Swept(labels, i, freed, all, oldest)
    ensures if Before(labels[i].epoch, oldest)
            then Swept(labels[..i] + labels[i + 1..], i, freed + labels[i].nodes, all, oldest)
            else Swept(labels, i + 1, freed, all, oldest)
  {
    if Before(labels[i].epoch, oldest) {
      SurvivorsDrop(labels, i, oldest);
      BagRemove(labels, i);
      assert (labels[..i] + labels[i + 1..])[..i] == labels[..i];
      assert multiset(freed + labels[i].nodes) == multiset(freed) + multiset(labels[i].nodes);
    } else {
      SurvivorsTake(labels, i, oldest);
    }
  }

  lemma SurvivorsDrop(labels: seq<Label>, i: nat, oldest: Option<nat>)
    requires i < |labels| && Before(labels[i].epoch, oldest)
    ensures Survivors(labels[..i] + labels[i + 1..], oldest) == Survivors(labels, oldest)
  {
    var a, l, b := labels[..i], labels[i], labels[i + 1..];
    assert labels == (a + [l]) + b;
    SurvivorsJoin(a + [l], b, oldest);
    SurvivorsJoin(a, [l], oldest);
    SurvivorsJoin(a, b, oldest);
    SurvivorsOne(l, oldest);
  }

  lemma SurvivorsTake(labels: seq<Label>, i: nat, oldest: Option<nat>)
    requires i < |labels| && !Before(labels[i].epoch, oldest) && labels[..i] == Survivors(labels[..i], oldest)
    ensures labels[..i + 1] == Survivors(labels[..i + 1], oldest)
  {
    assert labels[..i + 1] == labels[..i] + [labels[i]];
    SurvivorsJoin(labels[..i], [labels[i]], oldest);
    SurvivorsOne(labels[i], oldest);
  }

  lemma SurvivorsOne(l: Label, oldest: Option<nat>)
    ensures Survivors([l], oldest) == if Before(l.epoch, oldest) then [] else [l]
  {
    assert [l][1..] == [];
  }

  /** Stamps do not go back along the chain. */
  ghost predicate Stamped(labels: seq<Label>) {
    forall i, j :: 0 <= i < j < |labels| ==> labels[i].epoch <= labels[j].epoch
  }

  /** What may still be in use stays behind. */
  lemma {:induction false} WaitingKeeps(labels: seq<Label>, l: Label, oldest: Option<nat>)
    requires !Before(l.epoch, oldest)
    ensures Waiting(labels + [l], oldest) == Waiting(labels, oldest) + [l]
  {
    if labels != [] && Before(labels[0].epoch, oldest) {
      assert (labels + [l])[1..] == labels[1..] + [l];
      WaitingKeeps(labels[1..], l, oldest);
    }
  }

  /** With stamps in order the sweep that stops early frees all that may be freed. */
  lemma {:induction false} WaitingIsAll(labels: seq<Label>, oldest: Option<nat>)
    requires Stamped(labels)
    ensures Waiting(labels, oldest) == Survivors(labels, oldest)
  {
    if labels != [] {
      if Before(labels[0].epoch, oldest) {
        WaitingIsAll(labels[1..], oldest);
      } else {
        AllSurvive(labels, oldest);
      }
    }
  }

  lemma {:induction false} AllSurvive(labels: seq<Label>, oldest: Option<nat>)
    requires forall l :: l in labels ==> !Before(l.epoch, oldest)
    ensures Survivors(labels, oldest) == labels
  {
    if labels != [] { AllSurvive(labels[1..], oldest); }
  }

  class GarbageChain {
    var nodes: seq<Label>

    constructor ()
      ensures nodes == []
    {
      nodes := [];
    }

    /** The new node is the last to be freed, stamps stay in order if the epoch has not gone back, and a
        sweep frees the node only if all epochs still in use are later than its stamp. */
    method Add(n: Node, e: nat)
      modifies this
      ensures Flat(nodes) == old(Flat(nodes)) + [n]
      ensures Stamped(old(nodes)) && (forall l :: l in old(nodes) ==> l.epoch <= e) ==> Stamped(nodes)
      ensures forall oldest :: !Before(e, oldest) ==> n in Flat(Waiting(nodes, oldest))
      ensures nodes == AddNode(Bw(0), old(nodes), n, e)
    {
      ghost var was := nodes;
      var l := Label([n], e);
      nodes := nodes + [l];
      FlatSplit(was, [l]);
      FlatOne(l);
      forall oldest | !Before(e, oldest) ensures n in Flat(Waiting(nodes, oldest)) {
        WaitingKeeps(was, l, oldest);
        FlatSplit(Waiting(was, oldest), [l]);
      }
    }

    /** PerformGC: frees from the front while the stamp is before the minimal epoch. */
    method Perform(oldest: Option<nat>) returns (freed: seq<Node>)
      modifies this
      ensures freed + Flat(nodes) == old(Flat(nodes)) && nodes == Waiting(old(nodes), oldest)
      ensures Stamped(old(nodes)) ==> nodes == Survivors(old(nodes), oldest)
    {
      freed := [];
      if Stamped(nodes) { WaitingIsAll(nodes, oldest); }
      while nodes != [] && Before(nodes[0].epoch, oldest)
        invariant Waiting(nodes, oldest) == Waiting(old(nodes), oldest)
        invariant freed + Flat(nodes) == old(Flat(nodes))
        decreases |nodes|
      {
        assert freed + (nodes[0].nodes + Flat(nodes[1..])) == (freed + nodes[0].nodes) + Flat(nodes[1..]);
        freed := freed + nodes[0].nodes;
        nodes := nodes[1..];
      }
    }
  }
}
