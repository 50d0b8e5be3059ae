/** Consolidation as the Bw-tree runs it: a sorted small set of pending deltas, a Bloom filter of the
    keys already met, and a new leaf filled in place. */
module BwConsolidate {
  import opened Entries
  import opened BwChain
  import opened BwCollect

  class SortedSmallSet {
    const data: array<Delta>
    var start: nat
    var end: nat

    ghost predicate Valid() reads this {
      start <= end <= data.Length
    }

    function Contents(): seq<Delta>
      requires start <= end <= data.Length
      reads this, data
    {
      data[start..end]
    }

    /** `p` lists the pending deltas up to position `e`. */
    ghost predicate Lists(p: seq<Delta>, e: nat)
      reads this, data
    {
      && start <= e <= end <= data.Length && |p| == e - start
      && (forall i :: 0 <= i < |p| ==> p[i] == data[start + i])
    }

    constructor (capacity: nat)
      ensures Valid() && Contents() == [] && start == 0 && data.Length == capacity && fresh(data)
    {
      data := new Delta[capacity];
      start, end := 0, 0;
    }

    method InsertNoDedup(d: Delta)
      requires Valid() && end < data.Length
      modifies this`end, data
      ensures Valid() && end == old(end) + 1
      ensures Contents() == InsertDelta(old(Contents()), d)
    {
      InsertAt(UpperBound(Contents(), d), d);
    }

    method InsertAt(u: nat, d: Delta)
      requires Valid() && end < data.Length && start + u <= end
      modifies this`end, data
      ensures Valid() && end == old(end) + 1
      ensures Contents() == old(Contents())[..u] + [d] + old(Contents())[u..]
    {
      ghost var p := Contents();
      ShiftUp(start + u, p);
      data[start + u] := d;
      end := end + 1;
      ghost var r := Contents();
      forall j | u <= j < |p| ensures r[j + 1] == p[j] { assert data[start + j + 1] == p[j]; }
      forall j | 0 <= j < u ensures r[j] == p[j] { assert data[start + j] == p[j]; }
      Spliced(p, u, d, r);
    }

    /** Moves the deltas from position `at` on one slot up. */
    method ShiftUp(at: nat, ghost p: seq<Delta>)
      requires Valid() && end < data.Length && start <= at <= end && p == Contents()
      modifies data
      ensures forall j :: 0 <= j < at - start ==> data[start + j] == p[j]
      ensures forall j :: at - start <= j < |p| ==> data[start + j + 1] == p[j]
    {
      var i := end;
      while i > at
        invariant at <= i <= end
        invariant forall j :: 0 <= j < i - start ==> data[start + j] == p[j]
        invariant forall j :: i - start <= j < |p| ==> data[start + j + 1] == p[j]
      {
        assert data[i - 1] == p[i - 1 - start];
        data[i] := data[i - 1];
        i := i - 1;
      }
    }

    static lemma Spliced(p: seq<Delta>, u: nat, d: Delta, r: seq<Delta>)
      requires u <= |p| && |r| == |p| + 1 && r[u] == d
      requires forall j :: 0 <= j < u ==> r[j] == p[j]
      requires forall j :: u <= j < |p| ==> r[j + 1] == p[j]
      ensures r == p[..u] + [d] + p[u..]
    {
      var q := p[..u] + [d] + p[u..];
      forall j | 0 <= j < |r| ensures r[j] == q[j] {
        if j > u {
          assert r[(j - 1) + 1] == p[j - 1];
        }
      }
    }

    /** Inserts a delta unless one with its key is there: the first one wins. */
    method Insert(d: Delta)
      requires Valid() && SortedDeltas(Contents()) && end < data.Length
      modifies this`end, data
      ensures Valid() && end <= old(end) + 1 && SortedDeltas(Contents())
      ensures Contents() == Take(old(Contents()), d)
    {
      ghost var p := Contents();
      var u := FirstNotBelow(d.key);
      TakePlace(p, d, u);
      TakeOk(p, d);
      if start + u == end || data[start + u].key != d.key {
        InsertAt(u, d);
      }
    }

    method FirstNotBelow(k: Key) returns (u: nat)
      requires Valid()
      ensures u <= |Contents()| && (forall j :: 0 <= j < u ==> Contents()[j].key < k)
      ensures u < |Contents()| ==> k <= Contents()[u].key && data[start + u] == Contents()[u]
    {
      ghost var p := Contents();
      u := 0;
      while start + u < end && data[start + u].key < k
        invariant start + u <= end && forall j :: 0 <= j < u ==> p[j].key < k
      {
        assert data[start + u] == p[u];
        u := u + 1;
      }
    }

    static lemma TakePlace(p: seq<Delta>, d: Delta, u: nat)
      requires SortedDeltas(p) && u <= |p|
      requires (forall j :: 0 <= j < u ==> p[j].key < d.key) && (u < |p| ==> d.key <= p[u].key)
      ensures u < |p| && p[u].key == d.key ==> Take(p, d) == p
      ensures u == |p| || p[u].key != d.key ==> Take(p, d) == p[..u] + [d] + p[u..]
    {
      FindAt(p, d.key);
      if u < |p| && p[u].key == d.key {
        FindThis(p, u);
      } else {
        forall j | 0 <= j < |p| ensures p[j].key != d.key { }
        assert UpperBound(p, d) == u;
      }
    }

    method Invalidate()
      requires Valid()
      modifies this`end
      ensures Valid() && Contents() == [] && start == old(start)
    {
      end := start;
    }

    /** Takes out the smallest delta. */
    method PopFront() returns (d: Delta)
      requires Valid() && Contents() != []
      modifies this`start
      ensures Valid() && start == old(start) + 1
      ensures d == old(Contents())[0] && Contents() == old(Contents())[1..]
    {
      d := data[start];
      start := start + 1;
    }
  }

  // The byte and the bit of the filter that a hash selects.
  function ByteOf(h: bv8): (i: nat)
    ensures i < 32
  {
    assert h >> 3 < 32;
    (h >> 3) as nat
  }

  function BitOf(h: bv8): bv8 {
    (1 as bv8) << (h & 7)
  }

  predicate Marked(bits: seq<bv8>, h: bv8)
    requires |bits| == 32
  {
    bits[ByteOf(h)] & BitOf(h) != 0
  }

  function Mark(bits: seq<bv8>, h: bv8): seq<bv8>
    requires |bits| == 32
  {
    bits[ByteOf(h) := bits[ByteOf(h)] | BitOf(h)]
  }

  lemma BitsStay(was: bv8, extra: bv8, b: bv8)
    ensures was & b != 0 ==> (was | extra) & b != 0
  {
  }

  lemma BitIsSet(was: bv8, h: bv8)
    ensures (was | BitOf(h)) & BitOf(h) != 0
  {
  }

  lemma MarkSets(bits: seq<bv8>, h: bv8)
    requires |bits| == 32
    ensures Marked(Mark(bits, h), h)
  {
    BitIsSet(bits[ByteOf(h)], h);
  }

  /** A set bit is never cleared: the filter has no false negatives. */
  lemma MarkKeeps(bits: seq<bv8>, h: bv8, g: bv8)
    requires |bits| == 32 && Marked(bits, g)
    ensures Marked(Mark(bits, h), g)
  {
    if ByteOf(h) == ByteOf(g) {
      BitsStay(bits[ByteOf(g)], BitOf(h), BitOf(g));
    }
  }

  class BloomFilter {
    // Only the low byte of the hash selects the byte and the bit.
    const hash: Key -> bv8
    const bits: array<bv8>
    const data: array<Key>
    var count: nat

    ghost predicate Valid() reads this, bits, data {
      && bits.Length == 32 && (bits as object) != (data as object)
      && count <= data.Length
      && (forall i :: 0 <= i < count ==> Marked(bits[..], hash(data[i])))
    }

    ghost function Keys(): set<Key>
      requires Valid()
      reads this, bits, data
    {
      set i | 0 <= i < count :: data[i]
    }

    constructor (h: Key -> bv8, capacity: nat)
      ensures Valid() && Keys() == {} && data.Length == capacity && count == 0 && fresh(data) && fresh(bits)
    {
      hash := h;
      data := new Key[capacity];
      bits := new bv8[32](_ => 0);
      count := 0;
    }

    method Insert(k: Key)
      requires Valid() && count < data.Length
      modifies this`count, bits, data
      ensures Valid() && count == old(count) + 1 && Keys() == old(Keys()) + {k}
    {
      var h := hash(k);
      ghost var was := bits[..];
      data[count] := k;
      count := count + 1;
      bits[ByteOf(h)] := bits[ByteOf(h)] | BitOf(h);
      assert bits[..] == Mark(was, h);
      MarkSets(was, h);
      forall i | 0 <= i < count
        ensures Marked(bits[..], hash(data[i]))
      {
        if i < count - 1 {
          MarkKeeps(was, h, hash(data[i]));
        }
      }
      forall x ensures x in Keys() <==> x in old(Keys()) || x == k {
        if x in old(Keys()) {
          var i :| 0 <= i < count - 1 && old(data[i]) == x;
          assert data[i] == x;
        }
        assert data[count - 1] == k;
      }
    }

    /** The filter answers "absent" early; a set bit is confirmed by a scan, so the answer is exact. */
    method Exists(k: Key) returns (r: bool)
      requires Valid()
      ensures r == (k in Keys())
    {
      var h := hash(k);
      assert bits[..][ByteOf(h)] == bits[ByteOf(h)];
      if bits[ByteOf(h)] & BitOf(h) == 0 {
        return false;
      }
      var i := 0;
      while i < count
        invariant 0 <= i <= count
        invariant forall j :: 0 <= j < i ==> data[j] != k
      {
        if data[i] == k {
          return true;
        }
        i := i + 1;
      }
      return false;
    }
  }

  /** The new leaf: storage for exactly `capacity` entries, filled from the front. */
  class LeafBuilder {
    const capacity: nat
    var items: seq<Entry>

    constructor (n: nat)
      ensures items == [] && capacity == n
    {
      capacity := n;
      items := [];
    }

    method PushBack(run: seq<Entry>)
      requires |items| + |run| <= capacity
      modifies this`items
      ensures items == old(items) + run
    {
      items := items + run;
    }
  }

  // ----- one base leaf ------------------------------------------------------------------------

  /** `items` written so far and what is still to be merged make up `total`. */
  ghost predicate Pending(base: seq<Entry>, from: nat, p: seq<Delta>, items: seq<Entry>, total: seq<Entry>) {
    && Sorted(KeysOf(base)) && from <= |base| && Placed(base, from, p)
    && items + Merged(base, from, p) == total
  }

  lemma PlacedAt(base: seq<Entry>, from: nat, p: seq<Delta>)
    requires Sorted(KeysOf(base)) && Placed(base, from, p) && p != []
    ensures Placed(base, p[0].place.at, p)
  {
    forall i | 0 <= i < |p| ensures p[0].place.at <= p[i].place.at {
      if i > 0 { assert p[0].key < p[i].key; }
    }
  }

  lemma Empties(a: seq<Entry>, none: seq<Entry>, b: seq<Entry>, c: seq<Entry>)
    requires none == []
    ensures a + b + c == a + (none + b + c)
    ensures none + b + c == b + c
  {
    assert none + b == b;
  }

  lemma Assoc(a: seq<Entry>, b: seq<Entry>, c: seq<Entry>)
    ensures (a + b) + c == a + (b + c)
    ensures |a + b| <= |a + (b + c)|
  {
  }

  /** A merge from `from` starts with the base entries up to the first pending delta. */
  lemma MergedSkip(base: seq<Entry>, from: nat, p: seq<Delta>, at: nat)
    requires Sorted(KeysOf(base)) && from <= |base| && Placed(base, from, p) && p != [] && at == p[0].place.at
    requires from <= at <= |base| && Placed(base, at, p)
    ensures Merged(base, from, p) == base[from..at] + Merged(base, at, p)
  {
    MergedUnfold(base, from, p);
    MergedHere(base, p, at);
    var tail := Merged(base, at + (if p[0].place.hit then 1 else 0), p[1..]);
    SkipRun(base, from, at, EntryOf(p[0]), tail, Merged(base, from, p), Merged(base, at, p));
  }

  lemma SkipRun(base: seq<Entry>, from: nat, at: nat, e: seq<Entry>, tail: seq<Entry>, m: seq<Entry>, m': seq<Entry>)
    requires from <= at <= |base| && m == base[from..at] + e + tail && m' == base[at..at] + e + tail
    ensures m == base[from..at] + m'
  {
    SkipEmpty(base[from..at], base[at..at], e, tail, m, m');
  }

  lemma MergedHere(base: seq<Entry>, p: seq<Delta>, at: nat)
    requires Sorted(KeysOf(base)) && at <= |base| && Placed(base, at, p) && p != [] && at == p[0].place.at
    ensures Merged(base, at, p) ==
            base[at..at] + EntryOf(p[0]) + Merged(base, at + (if p[0].place.hit then 1 else 0), p[1..])
  {
    MergedUnfold(base, at, p);
  }

  lemma SkipEmpty(a: seq<Entry>, none: seq<Entry>, e: seq<Entry>, tail: seq<Entry>, m: seq<Entry>, m': seq<Entry>)
    requires none == [] && m == a + e + tail && m' == none + e + tail
    ensures m == a + m'
  {
    Empties(a, none, e, tail);
  }

  /** At its own position the first pending delta is written next. */
  lemma MergedTake(base: seq<Entry>, p: seq<Delta>, at: nat, from': nat)
    requires Sorted(KeysOf(base)) && p != [] && p[0].place.at == at <= |base| && Placed(base, at, p)
    requires from' == at + (if p[0].place.hit then 1 else 0)
    ensures from' <= |base| && Placed(base, from', p[1..])
    ensures Merged(base, at, p) == EntryOf(p[0]) + Merged(base, from', p[1..])
  {
    MergedUnfold(base, at, p);
    PlacedTail(base, at, p);
    Empties([], base[at..at], EntryOf(p[0]), Merged(base, from', p[1..]));
  }

  lemma SkipTo(base: seq<Entry>, from: nat, p: seq<Delta>, at: nat, items: seq<Entry>, total: seq<Entry>)
    requires Pending(base, from, p, items, total) && p != [] && at == p[0].place.at
    ensures from <= at <= |base|
    ensures |items + base[from..at]| <= |total|
    ensures Pending(base, at, p, items + base[from..at], total)
  {
    PlacedAt(base, from, p);
    assert p[0].place == PlaceIn(base, p[0].key);
    MergedSkip(base, from, p, at);
    Assoc(items, base[from..at], Merged(base, at, p));
  }

  /** One round of draining at position `at`: nothing has taken the base entry there yet. */
  lemma TakeFront(base: seq<Entry>, p: seq<Delta>, at: nat, overwritten: bool, items: seq<Entry>, total: seq<Entry>)
    requires p != [] && at == p[0].place.at
    requires Pending(base, at + (if overwritten then 1 else 0), p, items, total)
    ensures !overwritten
    ensures |items + EntryOf(p[0])| <= |total|
    ensures Pending(base, at + (if p[0].place.hit then 1 else 0), p[1..], items + EntryOf(p[0]), total)
  {
    var from' := at + (if p[0].place.hit then 1 else 0);
    assert !overwritten;
    MergedTake(base, p, at, from');
    Assoc(items, EntryOf(p[0]), Merged(base, from', p[1..]));
  }

  /** Drains the pending deltas that share base position `cur`; the next base entry to copy is the one
      at `cur`, or the one after it if a delta has overwritten it. */
  method Drain(base: seq<Entry>, cur: nat, sss: SortedSmallSet, sssEnd: nat, out: LeafBuilder,
               ghost p: seq<Delta>, ghost total: seq<Entry>)
    returns (next: nat, ghost rest: seq<Delta>)
    requires sss.Lists(p, sssEnd) && p != [] && p[0].place.at == cur
    requires Pending(base, cur, p, out.items, total) && |total| <= out.capacity
    modifies sss`start, out`items
    ensures sss.Lists(rest, sssEnd) && |rest| < |p|
    ensures Pending(base, next, rest, out.items, total)
  {
    var overwritten := false;
    rest := p;
    while sss.start != sssEnd && sss.data[sss.start].place.at == cur
      invariant sss.Lists(rest, sssEnd) && |rest| <= |p|
      invariant |rest| == |p| ==> rest != [] && rest[0].place.at == cur
      invariant Pending(base, cur + (if overwritten then 1 else 0), rest, out.items, total)
      decreases |rest|
    {
      assert rest[0] == sss.data[sss.start];
      TakeFront(base, rest, cur, overwritten, out.items, total);
      overwritten := sss.data[sss.start].place.hit;
      PushFront(sss, out, rest, sssEnd);
      rest := rest[1..];
    }
    next := cur + (if overwritten then 1 else 0);
  }

  /** Pops the front delta and writes what it stands for: nothing for a delete. */
  method PushFront(sss: SortedSmallSet, out: LeafBuilder, ghost p: seq<Delta>, ghost e: nat)
    requires sss.Lists(p, e) && p != []
    requires |out.items| + |EntryOf(p[0])| <= out.capacity
    modifies sss`start, out`items
    ensures sss.Lists(p[1..], e)
    ensures out.items == old(out.items) + EntryOf(p[0])
  {
    assert p[0] == sss.data[sss.start];
    var d := sss.PopFront();
    if !d.kind.Del? {
      out.PushBack([Entry(d.key, d.val)]);
    }
  }

  /** The merge loop over one base leaf, cut at the high key of the branch. */
  method MergeAtBase(items: seq<Entry>, high: Bound, sss: SortedSmallSet, out: LeafBuilder)
    requires sss.Valid() && BaseReady(items, high, sss.Contents())
    requires |out.items| + |AtBase(items, high, sss.Contents(), {}).out| <= out.capacity
    modifies sss`start, out`items
    ensures sss.Valid() && sss.Contents() == old(AtBase(items, high, sss.Contents(), {}).rest)
    ensures out.items == old(out.items) + old(AtBase(items, high, sss.Contents(), {}).out)
  {
    ghost var pending := sss.Contents();
    ghost var n := CountBelow(pending, high);
    var base := items[..CutBelow(items, high)];
    var sssEnd := EndBelow(sss, high);
    BasePlaced(items, high, pending);
    MergeLoop(base, sss, sssEnd, out, pending[..n]);
    assert sss.Contents() == pending[n..];
  }

  method MergeLoop(base: seq<Entry>, sss: SortedSmallSet, sssEnd: nat, out: LeafBuilder, ghost pending: seq<Delta>)
    requires sss.Lists(pending, sssEnd) && Sorted(KeysOf(base)) && Placed(base, 0, pending)
    requires |out.items| + |Merged(base, 0, pending)| <= out.capacity
    modifies sss`start, out`items
    ensures sss.start == sssEnd
    ensures out.items == old(out.items) + Merged(base, 0, pending)
  {
    ghost var total := out.items + Merged(base, 0, pending);
    ghost var p := pending;
    var from: nat := 0;
    while sss.start != sssEnd
      invariant sss.Lists(p, sssEnd)
      invariant Pending(base, from, p, out.items, total)
      decreases |p|
    {
      from, p := MergeRound(base, from, sss, sssEnd, out, p, total);
    }
    FinishRun(base, from, p, out.items, total);
    out.PushBack(base[from..]);
  }

  /** Base entries up to the front delta, then all deltas at its position. */
  method MergeRound(base: seq<Entry>, from: nat, sss: SortedSmallSet, sssEnd: nat, out: LeafBuilder,
                    ghost p: seq<Delta>, ghost total: seq<Entry>)
    returns (next: nat, ghost rest: seq<Delta>)
    requires sss.Lists(p, sssEnd) && sss.start != sssEnd
    requires Pending(base, from, p, out.items, total) && |total| <= out.capacity
    modifies sss`start, out`items
    ensures sss.Lists(rest, sssEnd) && |rest| < |p|
    ensures Pending(base, next, rest, out.items, total)
  {
    var cur := sss.data[sss.start].place.at;
    assert p[0] == sss.data[sss.start];
    CopyTo(base, from, cur, out, p, total);
    next, rest := Drain(base, cur, sss, sssEnd, out, p, total);
  }

  /** Copies the base entries before the front delta's position. */
  method CopyTo(base: seq<Entry>, from: nat, cur: nat, out: LeafBuilder, ghost p: seq<Delta>, ghost total: seq<Entry>)
    requires p != [] && p[0].place.at == cur
    requires Pending(base, from, p, out.items, total) && |total| <= out.capacity
    modifies out`items
    ensures Pending(base, cur, p, out.items, total)
  {
    SkipTo(base, from, p, cur, out.items, total);
    out.PushBack(base[from..cur]);
  }

  lemma FinishRun(base: seq<Entry>, from: nat, p: seq<Delta>, items: seq<Entry>, total: seq<Entry>)
    requires Pending(base, from, p, items, total) && p == []
    ensures items + base[from..] == total
  {
    MergedUnfold(base, from, p);
  }

  /** Where the pending deltas below the high key end, searched from the back. */
  method EndBelow(sss: SortedSmallSet, high: Bound) returns (e: nat)
    requires sss.Valid() && SortedDeltas(sss.Contents())
    ensures e == sss.start + CountBelow(sss.Contents(), high)
  {
    e := sss.end;
    if high.id != INVALID {
      while e > sss.start && !(sss.data[e - 1].key < high.key)
        invariant sss.start <= e <= sss.end
        invariant e < sss.end ==> !Below(sss.data[e].key, high)
      {
        e := e - 1;
      }
    }
    ghost var p := sss.Contents();
    assert forall i :: 0 <= i < |p| ==> p[i] == sss.data[sss.start + i];
    assert e < sss.end ==> p[e - sss.start] == sss.data[e];
    assert e > sss.start ==> p[e - 1 - sss.start] == sss.data[e - 1];
    EndIs(p, high, e - sss.start);
  }

  lemma EndIs(p: seq<Delta>, high: Bound, n: nat)
    requires SortedDeltas(p) && n <= |p|
    requires n > 0 ==> Below(p[n - 1].key, high)
    requires n < |p| ==> !Below(p[n].key, high)
    ensures n == CountBelow(p, high)
  {
    forall i | 0 <= i < n ensures Below(p[i].key, high) {
      assert p[i].key <= p[n - 1].key;
    }
  }

  lemma BasePlaced(items: seq<Entry>, high: Bound, p: seq<Delta>)
    requires BaseReady(items, high, p)
    ensures var base := items[..CutBelow(items, high)];
            Sorted(KeysOf(base)) && Placed(base, 0, p[..CountBelow(p, high)])
  {
    CutItems(items, high, 0);
    forall i | 0 <= i < CountBelow(p, high)
      ensures p[i].place == PlaceIn(items[..CutBelow(items, high)], p[i].key)
    {
      CutItems(items, high, p[i].key);
    }
  }

  // ----- whole chains -------------------------------------------------------------------------

  lemma ReadyBase(c: Chain, items: seq<Entry>, p: seq<Delta>, seen: set<Key>)
    requires WellFormed(c) && Ready(c, p, seen)
    requires (c.Leaf? && items == c.items) || (c.Split? && items == c.child.items)
    ensures BaseReady(items, High(c), p)
  {
    forall i | 0 <= i < |p| && Below(p[i].key, High(c))
      ensures p[i].place == PlaceIn(items, p[i].key)
    {
      FindThis(p, i);
    }
  }

  lemma ReadyChild(c: Chain, p: seq<Delta>, seen: set<Key>)
    requires WellFormed(c) && c.Data? && Ready(c, p, seen)
    ensures c.delta.key in seen ==> Ready(c.child, p, seen)
    ensures c.delta.key !in seen ==> Ready(c.child, InsertDelta(p, c.delta), seen + {c.delta.key})
  {
    if c.delta.key !in seen {
      InsertDeltaOk(p, c.delta);
    }
  }

  ghost predicate Stores(sss: SortedSmallSet, met: BloomFilter)
    reads sss, met, met.bits, met.data
  {
    && sss.Valid() && met.Valid()
    && (sss.data as object) != (met.data as object) && (sss.data as object) != (met.bits as object)
  }

  /** Where the walk down one branch stands: `r` is what the whole branch, with high key `high`, is to
      be collected into. */
  ghost predicate Heading(n: Chain, high: Bound, p: seq<Delta>, seen: set<Key>, r: Collected) {
    if n.Leaf? then BaseReady(n.items, high, p) && AtBase(n.items, high, p, seen) == r
    else WellFormed(n) && Ready(n, p, seen) && High(n) == high && Collect(n, p, seen) == r
  }

  lemma HeadingStart(c: Chain, p: seq<Delta>, seen: set<Key>)
    requires WellFormed(c) && Ready(c, p, seen)
    ensures Heading(c, High(c), p, seen, Collect(c, p, seen))
  {
    if c.Leaf? {
      ReadyBase(c, c.items, p, seen);
    }
  }

  /** Passing a data delta or a split delta keeps the heading. */
  lemma HeadingOn(n: Chain, high: Bound, p: seq<Delta>, seen: set<Key>, r: Collected)
    requires Heading(n, high, p, seen, r) && (n.Data? || n.Split?)
    ensures n.Split? ==> Heading(n.child, high, p, seen, r)
    ensures n.Data? && n.delta.key in seen ==> Heading(n.child, high, p, seen, r)
    ensures n.Data? && n.delta.key !in seen ==>
              Heading(n.child, high, InsertDelta(p, n.delta), seen + {n.delta.key}, r)
  {
    if n.Split? {
      ReadyBase(n, n.child.items, p, seen);
    } else {
      ReadyChild(n, p, seen);
      if n.delta.key in seen {
        HeadingStart(n.child, p, seen);
      } else {
        HeadingStart(n.child, InsertDelta(p, n.delta), seen + {n.delta.key});
      }
    }
  }

  /** Collects a data delta unless a newer one on its key has been met. */
  method TakeDelta(d: Delta, sss: SortedSmallSet, met: BloomFilter)
    requires Stores(sss, met) && sss.end < sss.data.Length && met.count + 2 <= met.data.Length
    modifies sss`end, sss.data, met`count, met.bits, met.data
    ensures Stores(sss, met) && sss.end <= old(sss.end) + 1 && met.count <= old(met.count) + 2
    ensures d.key in old(met.Keys()) ==> sss.Contents() == old(sss.Contents()) && met.Keys() == old(met.Keys())
    ensures d.key !in old(met.Keys()) ==>
              sss.Contents() == InsertDelta(old(sss.Contents()), d) && met.Keys() == old(met.Keys()) + {d.key}
  {
    var exists_ := met.Exists(d.key);
    if !exists_ {
      met.Insert(d.key);
      sss.InsertNoDedup(d);
    }
    if d.kind.Upd? {
      // The old item has the same key, so the second probe finds it and nothing more is added.
      exists_ := met.Exists(d.key);
      assert exists_;
    }
  }

  method CollectAll(c: Chain, sss: SortedSmallSet, met: BloomFilter, out: LeafBuilder)
    requires Stores(sss, met) && WellFormed(c) && Ready(c, sss.Contents(), met.Keys())
    requires sss.end + Depth(c) <= sss.data.Length && met.count + 2 * Depth(c) <= met.data.Length
    requires |out.items| + |Collect(c, sss.Contents(), met.Keys()).out| <= out.capacity
    modifies sss, sss.data, met`count, met.bits, met.data, out`items
    ensures Stores(sss, met)
    ensures var r := old(Collect(c, sss.Contents(), met.Keys()));
            out.items == old(out.items) + r.out && sss.Contents() == r.rest && met.Keys() == r.seen
    ensures sss.end <= old(sss.end) + Depth(c) && met.count <= old(met.count) + 2 * Depth(c)
    decreases c
  {
    ghost var r := Collect(c, sss.Contents(), met.Keys());
    var high := High(c);
    HeadingStart(c, sss.Contents(), met.Keys());
    var n := c;
    while !n.Leaf?
      invariant n == c || n < c
      invariant Stores(sss, met) && out.items == old(out.items)
      invariant Heading(n, high, sss.Contents(), met.Keys(), r)
      invariant sss.end + Depth(n) <= old(sss.end) + Depth(c)
      invariant met.count + 2 * Depth(n) <= old(met.count) + 2 * Depth(c)
      decreases n
    {
      if n.Merge? {
        CollectBranches(n, sss, met, out, r);
        return;
      }
      HeadingOn(n, high, sss.Contents(), met.Keys(), r);
      if n.Data? {
        TakeDelta(n.delta, sss, met);
      }
      n := n.child;
    }
    MergeAtBase(n.items, high, sss, out);
  }

  method CollectBranches(c: Chain, sss: SortedSmallSet, met: BloomFilter, out: LeafBuilder, ghost r: Collected)
    requires c.Merge? && Stores(sss, met) && WellFormed(c) && Ready(c, sss.Contents(), met.Keys())
    requires r == Collect(c, sss.Contents(), met.Keys())
    requires sss.end + Depth(c) <= sss.data.Length && met.count + 2 * Depth(c) <= met.data.Length
    requires |out.items| + |r.out| <= out.capacity
    modifies sss, sss.data, met`count, met.bits, met.data, out`items
    ensures Stores(sss, met)
    ensures out.items == old(out.items) + r.out && sss.Contents() == r.rest && met.Keys() == r.seen
    ensures sss.end <= old(sss.end) + Depth(c) && met.count <= old(met.count) + 2 * Depth(c)
    decreases c, 0
  {
    ghost var l := BranchesReady(c, sss.Contents(), met.Keys());
    ghost var was := out.items;
    CollectAll(c.child, sss, met, out);
    CollectAll(c.right, sss, met, out);
    Assoc(was, l.out, Collect(c.right, l.rest, l.seen).out);
  }

  lemma BranchesReady(c: Chain, p: seq<Delta>, seen: set<Key>) returns (l: Collected)
    requires c.Merge? && WellFormed(c) && Ready(c, p, seen)
    ensures l == Collect(c.child, p, seen) && Ready(c.child, p, seen) && Ready(c.right, l.rest, l.seen)
    ensures var r := Collect(c.right, l.rest, l.seen);
            Collect(c, p, seen) == Collected(l.out + r.out, r.rest, r.seen)
  {
    LeftReady(c, p, seen);
    CollectOk(c.child, p, seen);
    l := Collect(c.child, p, seen);
    RightReady(c, p, seen, l);
  }

  /** CollectAllValuesOnLeaf: the stack arrays are sized by the chain's depth and the new leaf by its
      item count; neither is ever overrun, and the leaf is filled exactly. */
  method Consolidate(c: Chain, hash: Key -> bv8) returns (leaf: Chain)
    requires WellFormed(c)
    ensures leaf == Consolidated(c)
    ensures WellFormed(leaf) && leaf.Leaf? && Replay(leaf) == Replay(c) && |leaf.items| == ItemCount(c)
  {
    ConsolidatedOk(c);
    var out := new LeafBuilder(ItemCount(c));
    var met := new BloomFilter(hash, 2 * Depth(c));
    var sss := new SortedSmallSet(Depth(c));
    assert Ready(c, [], {});
    CollectAll(c, sss, met, out);
    leaf := Leaf(out.items, Low(c), High(c));
  }
}
