/** Consolidation of a leaf delta chain: what CollectAllValuesOnLeaf computes, as a function, and the
    proof that it lists exactly the map the chain stands for. */
module BwCollect {
  import opened Entries
  import opened BwChain

  ghost predicate SortedDeltas(p: seq<Delta>) {
    forall i, j :: 0 <= i < j < |p| ==> p[i].key < p[j].key
  }

  /** Key order, then base position: the comparator of the small sorted set. */
  predicate Before(a: Delta, b: Delta) {
    a.key < b.key || (a.key == b.key && a.place.at < b.place.at)
  }

  function UpperBound(p: seq<Delta>, d: Delta): (pos: nat)
    ensures pos <= |p|
    ensures forall i :: 0 <= i < pos ==> !Before(d, p[i])
    ensures pos < |p| ==> Before(d, p[pos])
  {
    if p == [] || Before(d, p[0]) then 0 else 1 + UpperBound(p[1..], d)
  }

  function InsertDelta(p: seq<Delta>, d: Delta): seq<Delta> {
    var pos := UpperBound(p, d);
    p[..pos] + [d] + p[pos..]
  }

  function Find(p: seq<Delta>, k: Key): Option<Delta> {
    if p == [] then None else if p[0].key == k then Some(p[0]) else Find(p[1..], k)
  }

  function Effect(d: Delta): Option<Value> {
    if d.kind.Del? then None else Some(d.val)
  }

  /** The value of `k` when the pending deltas `p` lie over a value `under`. */
  function Overlay(p: seq<Delta>, k: Key, under: Option<Value>): Option<Value> {
    var d := Find(p, k);
    if d.Some? then Effect(d.value) else under
  }

  // ----- the computation ----------------------------------------------------------------------

  function Slice(base: seq<Entry>, from: int, to: int): seq<Entry> {
    if 0 <= from <= to <= |base| then base[from..to] else []
  }

  function EntryOf(d: Delta): seq<Entry> {
    if d.kind.Del? then [] else [Entry(d.key, d.val)]
  }

  /** Base entries from position `from` on, with pending deltas put in at their places. */
  function Merged(base: seq<Entry>, from: nat, p: seq<Delta>): seq<Entry>
    decreases |p|
  {
    if p == [] then Slice(base, from, |base|)
    else
      Slice(base, from, p[0].place.at) + EntryOf(p[0])
      + Merged(base, p[0].place.at + (if p[0].place.hit then 1 else 0), p[1..])
  }

  function CountBelow(p: seq<Delta>, high: Bound): (n: nat)
    ensures n <= |p|
    ensures forall i :: 0 <= i < n ==> Below(p[i].key, high)
    ensures n < |p| ==> !Below(p[n].key, high)
  {
    if p == [] || !Below(p[0].key, high) then 0 else 1 + CountBelow(p[1..], high)
  }

  function CutBelow(items: seq<Entry>, high: Bound): (n: nat)
    ensures n <= |items|
  {
    if high.id == INVALID then |items| else LowerBound(KeysOf(items), high.key)
  }

  datatype Collected = Collected(out: seq<Entry>, rest: seq<Delta>, seen: set<Key>)

  function AtBase(items: seq<Entry>, high: Bound, p: seq<Delta>, seen: set<Key>): Collected {
    var n := CountBelow(p, high);
    Collected(Merged(items[..CutBelow(items, high)], 0, p[..n]), p[n..], seen)
  }

  /** Collects chain `c` when `p` are deltas seen above it and `seen` the keys they touched: the
      entries of its range, and the pending deltas that belong further right. */
  function Collect(c: Chain, p: seq<Delta>, seen: set<Key>): Collected {
    match c
    case Leaf(items, _, high) => AtBase(items, high, p, seen)
    case Data(d, child) =>
      if d.key in seen then Collect(child, p, seen)
      else Collect(child, InsertDelta(p, d), seen + {d.key})
    case Split(item, _, child) =>
      if child.Leaf? then AtBase(child.items, item, p, seen) else Collect(child, p, seen)
    case Merge(_, child, right) =>
      var l := Collect(child, p, seen);
      var r := Collect(right, l.rest, l.seen);
      Collected(l.out + r.out, r.rest, r.seen)
    case Remove(_, child) => Collected([], p, seen)
  }

  /** The leaf a chain is consolidated into. */
  function Consolidated(c: Chain): Chain {
    Leaf(Collect(c, [], {}).out, Low(c), High(c))
  }

  // ----- pending deltas -----------------------------------------------------------------------

  lemma {:induction false} FindAt(p: seq<Delta>, k: Key)
    ensures Find(p, k).Some? ==> exists i :: 0 <= i < |p| && p[i] == Find(p, k).value && p[i].key == k
    ensures Find(p, k).None? ==> forall i :: 0 <= i < |p| ==> p[i].key != k
  {
    if p != [] && p[0].key != k {
      FindAt(p[1..], k);
      if Find(p, k).Some? {
        var i :| 0 <= i < |p[1..]| && p[1..][i] == Find(p, k).value && p[1..][i].key == k;
        assert p[i + 1] == Find(p, k).value;
      } else {
        forall i | 0 <= i < |p| ensures p[i].key != k {
          if i > 0 { assert p[i] == p[1..][i - 1]; }
        }
      }
    }
  }

  lemma FindThis(p: seq<Delta>, i: nat)
    requires SortedDeltas(p) && i < |p|
    ensures Find(p, p[i].key) == Some(p[i])
  {
    FindAt(p, p[i].key);
  }

  lemma InsertDeltaOk(p: seq<Delta>, d: Delta)
    requires SortedDeltas(p) && Find(p, d.key).None?
    ensures SortedDeltas(InsertDelta(p, d))
    ensures forall k :: Find(InsertDelta(p, d), k) == if k == d.key then Some(d) else Find(p, k)
  {
    var pos, r := UpperBound(p, d), InsertDelta(p, d);
    FindAt(p, d.key);
    assert forall i :: 0 <= i < |r| ==> r[i] == if i < pos then p[i] else if i == pos then d else p[i - 1];
    assert SortedDeltas(r);
    forall k
      ensures Find(r, k) == if k == d.key then Some(d) else Find(p, k)
    {
      InsertFind(p, d, pos, r, k);
    }
  }

  lemma InsertFind(p: seq<Delta>, d: Delta, pos: nat, r: seq<Delta>, k: Key)
    requires pos <= |p| && r == p[..pos] + [d] + p[pos..] && SortedDeltas(r) && SortedDeltas(p)
    ensures Find(r, k) == if k == d.key then Some(d) else Find(p, k)
  {
    assert forall i :: 0 <= i < |r| ==> r[i] == if i < pos then p[i] else if i == pos then d else p[i - 1];
    if k == d.key {
      FindThis(r, pos);
    } else {
      FindAt(p, k);
      if Find(p, k).Some? {
        var i :| 0 <= i < |p| && p[i] == Find(p, k).value && p[i].key == k;
        FindThis(r, if i < pos then i else i + 1);
      } else {
        FindAt(r, k);
      }
    }
  }

  /** The newest delta on a key is the one that counts: later ones find the key taken. */
  function Take(p: seq<Delta>, d: Delta): seq<Delta> {
    if Find(p, d.key).Some? then p else InsertDelta(p, d)
  }

  lemma TakeOk(p: seq<Delta>, d: Delta)
    requires SortedDeltas(p)
    ensures SortedDeltas(Take(p, d))
    ensures forall k :: Find(Take(p, d), k) == if Find(p, k).None? && k == d.key then Some(d) else Find(p, k)
  {
    if Find(p, d.key).None? { InsertDeltaOk(p, d); }
  }

  /** What a part of the pending deltas finds. */
  lemma FindPart(p: seq<Delta>, from: nat, to: nat, k: Key)
    requires SortedDeltas(p) && from <= to <= |p|
    ensures forall i :: from <= i < to && p[i].key == k ==> Find(p[from..to], k) == Some(p[i])
    ensures (forall i :: from <= i < to ==> p[i].key != k) ==> Find(p[from..to], k) == None
  {
    var part := p[from..to];
    FindAt(part, k);
    forall i | from <= i < to && p[i].key == k ensures Find(part, k) == Some(p[i]) {
      assert part[i - from] == p[i];
    }
  }

  /** Cutting the pending deltas at a high key. */
  lemma CutDeltas(p: seq<Delta>, high: Bound, k: Key)
    requires SortedDeltas(p)
    ensures var n := CountBelow(p, high);
            && Find(p[..n], k) == (if Below(k, high) then Find(p, k) else None)
            && Find(p[n..], k) == (if Below(k, high) then None else Find(p, k))
  {
    var n := CountBelow(p, high);
    assert p[..n] == p[0..n] && p[n..] == p[n..|p|] && p == p[0..|p|];
    forall i | n <= i < |p| ensures !Below(p[i].key, high) {
      assert p[n].key <= p[i].key;
    }
    FindPart(p, 0, n, k);
    FindPart(p, n, |p|, k);
    FindPart(p, 0, |p|, k);
  }

  // ----- runs of entries ----------------------------------------------------------------------

  /** The entries of `base` between two positions, as a lookup. */
  lemma SliceGet(base: seq<Entry>, from: nat, to: nat, k: Key)
    requires Sorted(KeysOf(base)) && from <= to <= |base|
    ensures Sorted(KeysOf(base[from..to]))
    ensures LeafGet(base[from..to], k) ==
            if from <= LowerBound(KeysOf(base), k) < to then LeafGet(base, k) else None
  {
    var l, pos := base[from..to], LowerBound(KeysOf(base), k);
    assert forall i :: 0 <= i < |l| ==> KeysOf(l)[i] == KeysOf(base)[from + i];
    LeafGetIff(base, k);
    LeafGetIff(l, k);
    if k in KeysOf(base) {
      var i :| 0 <= i < |base| && base[i].key == k;
      LowerBoundUnique(KeysOf(base), k, i);
      if from <= i < to {
        assert l[i - from] == base[i];
      }
    }
  }

  lemma LeafGetAt(data: seq<Entry>, i: nat)
    requires Sorted(KeysOf(data)) && i < |data|
    ensures LeafGet(data, data[i].key) == Some(data[i].val)
  {
    LeafGetIff(data, data[i].key);
  }

  // ----- the merge loop -----------------------------------------------------------------------

  ghost predicate Placed(base: seq<Entry>, from: nat, p: seq<Delta>) {
    && SortedDeltas(p)
    && (forall i :: 0 <= i < |p| ==> p[i].place == PlaceIn(base, p[i].key) && from <= p[i].place.at)
  }

  /** Past the first pending delta the remaining ones are still placed. */
  lemma PlacedTail(base: seq<Entry>, from: nat, p: seq<Delta>)
    requires Sorted(KeysOf(base)) && Placed(base, from, p) && p != []
    ensures Placed(base, p[0].place.at + (if p[0].place.hit then 1 else 0), p[1..])
  {
  }

  /** What the merge loop writes: base entries from `from` on, with the pending deltas over them. */
  ghost predicate MergedTo(out: seq<Entry>, base: seq<Entry>, from: nat, p: seq<Delta>) {
    Sorted(KeysOf(out)) && (forall k :: LeafGet(out, k) == Overlay(p, k, GetFrom(base, from, k)))
  }

  function GetFrom(base: seq<Entry>, from: nat, k: Key): Option<Value> {
    if from <= LowerBound(KeysOf(base), k) then LeafGet(base, k) else None
  }

  /** One round of the merge loop. */
  lemma MergedUnfold(base: seq<Entry>, from: nat, p: seq<Delta>)
    requires Sorted(KeysOf(base)) && from <= |base| && Placed(base, from, p)
    ensures p == [] ==> Merged(base, from, p) == base[from..]
    ensures p != [] ==>
              var from' := p[0].place.at + (if p[0].place.hit then 1 else 0);
              && from <= p[0].place.at <= from' <= |base|
              && Merged(base, from, p) == base[from..p[0].place.at] + EntryOf(p[0]) + Merged(base, from', p[1..])
  {
  }

  lemma {:induction false} MergedOk(base: seq<Entry>, from: nat, p: seq<Delta>)
    requires Sorted(KeysOf(base)) && from <= |base| && Placed(base, from, p)
    ensures MergedTo(Merged(base, from, p), base, from, p)
    decreases |p|
  {
    if p == [] {
      MergedUnfold(base, from, p);
      RunFrom(base, from);
    } else {
      var from' := p[0].place.at + (if p[0].place.hit then 1 else 0);
      MergedNext(base, from, p);
      MergedOk(base, from', p[1..]);
      MergedCons(base, from, p, from');
    }
  }

  lemma MergedNext(base: seq<Entry>, from: nat, p: seq<Delta>)
    requires Sorted(KeysOf(base)) && from <= |base| && Placed(base, from, p) && p != []
    ensures var from' := p[0].place.at + (if p[0].place.hit then 1 else 0);
            from' <= |base| && Placed(base, from', p[1..])
  {
    MergedUnfold(base, from, p);
    PlacedTail(base, from, p);
  }

  lemma MergedCons(base: seq<Entry>, from: nat, p: seq<Delta>, from': nat)
    requires Sorted(KeysOf(base)) && from <= |base| && Placed(base, from, p) && p != []
    requires from' == p[0].place.at + (if p[0].place.hit then 1 else 0)
    requires MergedTo(Merged(base, from', p[1..]), base, from', p[1..])
    ensures MergedTo(Merged(base, from, p), base, from, p)
  {
    MergedUnfold(base, from, p);
    MergedStep(base, from, p, Merged(base, from', p[1..]));
  }

  lemma RunFrom(base: seq<Entry>, from: nat)
    requires Sorted(KeysOf(base)) && from <= |base|
    ensures MergedTo(base[from..], base, from, [])
  {
    var run := base[from..];
    assert run == base[from..|base|];
    SliceGet(base, from, |base|, 0);
    forall k ensures LeafGet(run, k) == GetFrom(base, from, k) {
      SliceGet(base, from, |base|, k);
      RunGet(base, from, k);
    }
  }

  lemma RunGet(base: seq<Entry>, from: nat, k: Key)
    requires Sorted(KeysOf(base)) && from <= |base|
    ensures GetFrom(base, from, k) ==
            if from <= LowerBound(KeysOf(base), k) < |base| then LeafGet(base, k) else None
  {
  }

  /** What is written after a delta lies above its key. */
  lemma TailAbove(base: seq<Entry>, from': nat, p: seq<Delta>, tail: seq<Entry>)
    requires Sorted(KeysOf(base)) && p != [] && SortedDeltas(p) && p[0].place == PlaceIn(base, p[0].key)
    requires from' == p[0].place.at + (if p[0].place.hit then 1 else 0)
    requires MergedTo(tail, base, from', p[1..])
    ensures forall i :: 0 <= i < |tail| ==> p[0].key < tail[i].key
  {
    forall i | 0 <= i < |tail|
      ensures p[0].key < tail[i].key
    {
      var k := tail[i].key;
      LeafGetAt(tail, i);
      FindAt(p[1..], k);
      if Find(p[1..], k).None? {
        assert from' <= LowerBound(KeysOf(base), k) && LeafGet(base, k).Some?;
      }
    }
  }

  /** Base entries up to a delta's place. */
  lemma HeadGet(base: seq<Entry>, from: nat, d: Delta, k: Key)
    requires Sorted(KeysOf(base)) && from <= d.place.at && d.place == PlaceIn(base, d.key)
    ensures Sorted(KeysOf(base[from..d.place.at]))
    ensures forall i :: 0 <= i < |base[from..d.place.at]| ==> base[from..d.place.at][i].key < d.key
    ensures LeafGet(base[from..d.place.at], k) == if k < d.key then GetFrom(base, from, k) else None
  {
    var keys := KeysOf(base);
    SliceGet(base, from, d.place.at, k);
    assert forall i :: from <= i < d.place.at ==> keys[i] < d.key;
    if k < d.key {
      assert LowerBound(keys, k) <= d.place.at;
      assert LowerBound(keys, k) == d.place.at ==> LeafGet(base, k) == None;
    }
  }

  lemma EntryGet(d: Delta, k: Key)
    ensures Sorted(KeysOf(EntryOf(d)))
    ensures LeafGet(EntryOf(d), k) == if k == d.key then Effect(d) else None
  {
    var one := EntryOf(d);
    assert KeysOf(one) == if d.kind.Del? then [] else [d.key];
    LeafGetIff(one, k);
    assert !d.kind.Del? ==> one[0] == Entry(d.key, d.val);
  }

  /** Base entries up to a delta's place, then the delta's own entry. */
  lemma HeadRun(base: seq<Entry>, from: nat, d: Delta, k: Key)
    requires Sorted(KeysOf(base)) && from <= d.place.at && d.place == PlaceIn(base, d.key)
    ensures Sorted(KeysOf(base[from..d.place.at] + EntryOf(d)))
    ensures forall i :: 0 <= i < |base[from..d.place.at] + EntryOf(d)| ==>
        (base[from..d.place.at] + EntryOf(d))[i].key <= d.key
    ensures LeafGet(base[from..d.place.at] + EntryOf(d), k) ==
            if k < d.key then GetFrom(base, from, k) else if k == d.key then Effect(d) else None
  {
    HeadGet(base, from, d, k);
    EntryGet(d, k);
    JoinRuns(base[from..d.place.at], EntryOf(d), k);
  }

  lemma MergedStep(base: seq<Entry>, from: nat, p: seq<Delta>, tail: seq<Entry>)
    requires Sorted(KeysOf(base)) && from <= |base| && p != [] && Placed(base, from, p)
    requires MergedTo(tail, base, p[0].place.at + (if p[0].place.hit then 1 else 0), p[1..])
    ensures MergedTo(base[from..p[0].place.at] + EntryOf(p[0]) + tail, base, from, p)
  {
    var d := p[0];
    TailAbove(base, d.place.at + (if d.place.hit then 1 else 0), p, tail);
    HeadRun(base, from, d, 0);
    JoinRuns(base[from..d.place.at] + EntryOf(d), tail, 0);
    forall k
      ensures LeafGet(base[from..d.place.at] + EntryOf(d) + tail, k) == Overlay(p, k, GetFrom(base, from, k))
    {
      MergedStepAt(base, from, p, tail, k);
    }
  }

  lemma MergedStepAt(base: seq<Entry>, from: nat, p: seq<Delta>, tail: seq<Entry>, k: Key)
    requires Sorted(KeysOf(base)) && from <= |base| && p != [] && Placed(base, from, p)
    requires MergedTo(tail, base, p[0].place.at + (if p[0].place.hit then 1 else 0), p[1..])
    requires forall i :: 0 <= i < |tail| ==> p[0].key < tail[i].key
    ensures LeafGet(base[from..p[0].place.at] + EntryOf(p[0]) + tail, k) == Overlay(p, k, GetFrom(base, from, k))
  {
    var d := p[0];
    var head := base[from..d.place.at] + EntryOf(d);
    HeadRun(base, from, d, k);
    JoinRuns(head, tail, k);
    FindAt(p[1..], k);
    if k <= d.key {
      LeafGetIff(tail, k);
    }
  }

  // ----- the base leaf ------------------------------------------------------------------------

  lemma CutItems(items: seq<Entry>, high: Bound, k: Key)
    requires Sorted(KeysOf(items))
    ensures var cut := items[..CutBelow(items, high)];
            && Sorted(KeysOf(cut))
            && LeafGet(cut, k) == (if Below(k, high) then LeafGet(items, k) else None)
            && (Below(k, high) ==> PlaceIn(cut, k) == PlaceIn(items, k))
  {
    var n := CutBelow(items, high);
    SliceGet(items, 0, n, k);
    var cut := items[0..n];
    assert cut == items[..n];
    assert forall i :: 0 <= i < n ==> KeysOf(cut)[i] == KeysOf(items)[i];
    var pos := LowerBound(KeysOf(items), k);
    if Below(k, high) {
      assert pos <= n;
      LowerBoundUnique(KeysOf(cut), k, pos);
    } else {
      LeafGetIff(items, k);
    }
  }

  ghost predicate BaseReady(items: seq<Entry>, high: Bound, p: seq<Delta>) {
    && Sorted(KeysOf(items)) && SortedDeltas(p)
    && (forall i :: 0 <= i < |p| && Below(p[i].key, high) ==> p[i].place == PlaceIn(items, p[i].key))
  }

  lemma AtBaseOk(items: seq<Entry>, high: Bound, p: seq<Delta>, seen: set<Key>)
    requires BaseReady(items, high, p)
    ensures var r := AtBase(items, high, p, seen);
            && Sorted(KeysOf(r.out)) && SortedDeltas(r.rest)
            && (forall k :: LeafGet(r.out, k) == if Below(k, high) then Overlay(p, k, LeafGet(items, k)) else None)
            && (forall k :: Find(r.rest, k) == if Below(k, high) then None else Find(p, k))
  {
    var n, base := CountBelow(p, high), items[..CutBelow(items, high)];
    var r := AtBase(items, high, p, seen);
    CutItems(items, high, 0);
    forall i | 0 <= i < n
      ensures p[..n][i].place == PlaceIn(base, p[..n][i].key)
    {
      CutItems(items, high, p[i].key);
    }
    MergedOk(base, 0, p[..n]);
    forall k
      ensures LeafGet(r.out, k) == if Below(k, high) then Overlay(p, k, LeafGet(items, k)) else None
      ensures Find(r.rest, k) == if Below(k, high) then None else Find(p, k)
    {
      CutItems(items, high, k);
      CutDeltas(p, high, k);
    }
  }

  // ----- whole chains -------------------------------------------------------------------------

  /** What the deltas collected so far must satisfy when the collection reaches chain `c`. */
  ghost predicate Ready(c: Chain, p: seq<Delta>, seen: set<Key>) {
    && SortedDeltas(p)
    && (forall k :: Find(p, k).Some? ==>
        AtLeast(k, Low(c)) && (Below(k, High(c)) ==> Find(p, k).value.place == PlaceOf(c, k)))
    && (forall k :: AtLeast(k, Low(c)) ==> (k in seen <==> Find(p, k).Some?))
  }

  ghost predicate CollectedFrom(r: Collected, c: Chain, p: seq<Delta>, seen: set<Key>) {
    && Sorted(KeysOf(r.out)) && SortedDeltas(r.rest)
    && (forall k :: LeafGet(r.out, k) == if InRange(k, c) then Overlay(p, k, MapGet(Replay(c), k)) else None)
    && (forall k :: Find(r.rest, k) == if Below(k, High(c)) then None else Find(p, k))
    && (forall k :: !Below(k, High(c)) ==> (k in r.seen <==> k in seen))
  }

  lemma BaseCase(c: Chain, items: seq<Entry>, p: seq<Delta>, seen: set<Key>)
    requires WellFormed(c) && Ready(c, p, seen)
    requires (c.Leaf? && items == c.items) || (c.Split? && c.child.Leaf? && items == c.child.items)
    ensures CollectedFrom(AtBase(items, High(c), p, seen), c, p, seen)
  {
    BasePlaces(c, items, p, seen);
    AtBaseOk(items, High(c), p, seen);
    BaseCollected(AtBase(items, High(c), p, seen), c, items, p, seen);
  }

  lemma BasePlaces(c: Chain, items: seq<Entry>, p: seq<Delta>, seen: set<Key>)
    requires WellFormed(c) && Ready(c, p, seen)
    requires (c.Leaf? && items == c.items) || (c.Split? && c.child.Leaf? && items == c.child.items)
    ensures Sorted(KeysOf(items))
    ensures forall i :: 0 <= i < |p| && Below(p[i].key, High(c)) ==> p[i].place == PlaceIn(items, p[i].key)
  {
    forall i | 0 <= i < |p| && Below(p[i].key, High(c)) ensures p[i].place == PlaceIn(items, p[i].key) {
      FindThis(p, i);
    }
  }

  lemma BaseCollected(r: Collected, c: Chain, items: seq<Entry>, p: seq<Delta>, seen: set<Key>)
    requires WellFormed(c) && Ready(c, p, seen)
    requires (c.Leaf? && items == c.items) || (c.Split? && c.child.Leaf? && items == c.child.items)
    requires Sorted(KeysOf(r.out)) && SortedDeltas(r.rest) && r.seen == seen
    requires forall k :: LeafGet(r.out, k) == if Below(k, High(c)) then Overlay(p, k, LeafGet(items, k)) else None
    requires forall k :: Find(r.rest, k) == if Below(k, High(c)) then None else Find(p, k)
    ensures CollectedFrom(r, c, p, seen)
  {
    forall k ensures LeafGet(r.out, k) == if InRange(k, c) then Overlay(p, k, MapGet(Replay(c), k)) else None {
      BaseGet(c, items, p, seen, k);
    }
  }

  lemma BaseGet(c: Chain, items: seq<Entry>, p: seq<Delta>, seen: set<Key>, k: Key)
    requires WellFormed(c) && Ready(c, p, seen)
    requires (c.Leaf? && items == c.items) || (c.Split? && c.child.Leaf? && items == c.child.items)
    ensures (if Below(k, High(c)) then Overlay(p, k, LeafGet(items, k)) else None) ==
            if InRange(k, c) then Overlay(p, k, MapGet(Replay(c), k)) else None
  {
    MapOfGet(items, k);
    if !AtLeast(k, Low(c)) {
      LeafGetIff(items, k);
    }
  }

  lemma {:induction false} CollectOk(c: Chain, p: seq<Delta>, seen: set<Key>)
    requires WellFormed(c) && Ready(c, p, seen)
    ensures CollectedFrom(Collect(c, p, seen), c, p, seen)
  {
    match c
    case Leaf(items, _, _) =>
      BaseCase(c, items, p, seen);
    case Split(item, _, child) =>
      BaseCase(c, child.items, p, seen);
    case Data(d, child) =>
      if d.key in seen {
        CollectOk(child, p, seen);
        Shadowed(Collect(child, p, seen), c, p, seen);
      } else {
        InsertDeltaOk(p, d);
        CollectOk(child, InsertDelta(p, d), seen + {d.key});
        Taken(Collect(c, p, seen), c, p, seen);
      }
    case Merge(_, child, right) =>
      LeftReady(c, p, seen);
      CollectOk(child, p, seen);
      var l := Collect(child, p, seen);
      RightReady(c, p, seen, l);
      CollectOk(right, l.rest, l.seen);
      Joined(c, p, seen, l, Collect(right, l.rest, l.seen));
  }

  /** A delta below a newer one on the same key changes nothing. */
  lemma Shadowed(r: Collected, c: Chain, p: seq<Delta>, seen: set<Key>)
    requires WellFormed(c) && c.Data? && Ready(c, p, seen) && c.delta.key in seen
    requires CollectedFrom(r, c.child, p, seen)
    ensures CollectedFrom(r, c, p, seen)
  {
    forall k
      ensures Overlay(p, k, MapGet(Replay(c), k)) == Overlay(p, k, MapGet(Replay(c.child), k))
    {
    }
  }

  /** The newest delta on a key is the one collected. */
  lemma Taken(r: Collected, c: Chain, p: seq<Delta>, seen: set<Key>)
    requires WellFormed(c) && c.Data? && Ready(c, p, seen) && c.delta.key !in seen
    requires Find(p, c.delta.key).None?
    requires forall k :: Find(InsertDelta(p, c.delta), k) == if k == c.delta.key then Some(c.delta) else Find(p, k)
    requires CollectedFrom(r, c.child, InsertDelta(p, c.delta), seen + {c.delta.key})
    ensures CollectedFrom(r, c, p, seen)
  {
    var q := InsertDelta(p, c.delta);
    forall k
      ensures Overlay(q, k, MapGet(Replay(c.child), k)) == Overlay(p, k, MapGet(Replay(c), k))
    {
    }
  }

  lemma LeftReady(c: Chain, p: seq<Delta>, seen: set<Key>)
    requires WellFormed(c) && c.Merge? && Ready(c, p, seen)
    ensures Ready(c.child, p, seen)
  {
    RangeProper(c.right);
  }

  lemma RightReady(c: Chain, p: seq<Delta>, seen: set<Key>, l: Collected)
    requires WellFormed(c) && c.Merge? && Ready(c, p, seen)
    requires CollectedFrom(l, c.child, p, seen)
    ensures Ready(c.right, l.rest, l.seen)
  {
    RangeProper(c.child);
  }

  lemma Joined(c: Chain, p: seq<Delta>, seen: set<Key>, l: Collected, r: Collected)
    requires WellFormed(c) && c.Merge?
    requires CollectedFrom(l, c.child, p, seen) && CollectedFrom(r, c.right, l.rest, l.seen)
    ensures CollectedFrom(Collected(l.out + r.out, r.rest, r.seen), c, p, seen)
  {
    RangeProper(c.child);
    RangeProper(c.right);
    forall i | 0 <= i < |l.out| ensures l.out[i].key < c.item.key { LeafGetAt(l.out, i); }
    forall j | 0 <= j < |r.out| ensures c.item.key <= r.out[j].key { LeafGetAt(r.out, j); }
    JoinRuns(l.out, r.out, 0);
    BranchesApart(c);
    forall k
      ensures LeafGet(l.out + r.out, k) == if InRange(k, c) then Overlay(p, k, MapGet(Replay(c), k)) else None
    {
      JoinRuns(l.out, r.out, k);
      JoinedAt(c, p, seen, l, r, k);
    }
  }

  lemma JoinedAt(c: Chain, p: seq<Delta>, seen: set<Key>, l: Collected, r: Collected, k: Key)
    requires WellFormed(c) && c.Merge?
    requires Proper(Low(c.child), High(c.child)) && Proper(Low(c.right), High(c.right))
    requires CollectedFrom(l, c.child, p, seen) && CollectedFrom(r, c.right, l.rest, l.seen)
    requires k in Replay(c.child) ==> k < c.item.key
    requires k in Replay(c.right) ==> k >= c.item.key
    ensures (if LeafGet(l.out, k).Some? then LeafGet(l.out, k) else LeafGet(r.out, k)) ==
            if InRange(k, c) then Overlay(p, k, MapGet(Replay(c), k)) else None
  {
    assert MapGet(Replay(c), k) == MapGet(Replay(if k < c.item.key then c.child else c.right), k);
  }

  /** The collected entries list the map of the chain. */
  lemma CollectGet(c: Chain, k: Key)
    requires WellFormed(c)
    ensures Sorted(KeysOf(Collect(c, [], {}).out))
    ensures LeafGet(Collect(c, [], {}).out, k) == MapGet(Replay(c), k)
  {
    CollectOk(c, [], {});
    if k in Replay(c) { ReplayInRange(c, k); }
  }

  /** Consolidating a well-formed chain gives a sorted leaf over the same range that stands for the
      same map, with exactly as many entries as the chain's item count says. */
  lemma ConsolidatedOk(c: Chain)
    requires WellFormed(c)
    ensures WellFormed(Consolidated(c))
    ensures Replay(Consolidated(c)) == Replay(c)
    ensures |Consolidated(c).items| == ItemCount(c)
    ensures Low(Consolidated(c)) == Low(c) && High(Consolidated(c)) == High(c)
  {
    var items := Collect(c, [], {}).out;
    CollectGet(c, 0);
    forall k ensures MapGet(Replay(c), k) == LeafGet(items, k) { CollectGet(c, k); }
    SizeOfMap(items, Replay(c));
    CountExact(c);
    RangeProper(c);
    forall i | 0 <= i < |items| ensures InRange(items[i].key, c) {
      LeafGetAt(items, i);
      assert MapGet(Replay(c), items[i].key) == LeafGet(items, items[i].key);
      ReplayInRange(c, items[i].key);
    }
    SameMap(items, Replay(c));
  }

  /** Splits must sit on base leaves: over a merge delta the cut would be lost, so that such a chain
      would be consolidated correctly only if there were nothing to cut. */
  lemma SplitOverMerge(item: Bound, moved: nat, child: Chain)
    requires WellFormed(child) && child.Merge?
    ensures MapOf(Collect(Split(item, moved, child), [], {}).out) == Replay(Split(item, moved, child)) <==>
            forall k :: k in Replay(child) ==> Below(k, item)
  {
    var items, m := Collect(child, [], {}).out, Replay(child);
    forall k ensures MapGet(m, k) == LeafGet(items, k) { CollectGet(child, k); }
    SameMap(items, m);
    if m == Restrict(m, item) {
      forall k | k in m ensures Below(k, item) { assert k in Restrict(m, item); }
    }
  }

  lemma SameMap(items: seq<Entry>, m: map<Key, Value>)
    requires forall k :: MapGet(m, k) == LeafGet(items, k)
    ensures MapOf(items) == m
  {
    forall k ensures MapGet(MapOf(items), k) == MapGet(m, k) { MapOfGet(items, k); }
    forall k ensures (k in MapOf(items) <==> k in m) && (k in m ==> MapOf(items)[k] == m[k]) {
      assert MapGet(MapOf(items), k) == MapGet(m, k);
    }
  }
}
