/** Consolidation of inner delta chains as the Bw-tree runs it: the deltas go into a small sorted set on a
    stack array sized by the depth of the chain, and the new node is filled in place. */
module BwInnerBuild {
  import opened Entries
  import opened BwChain
  import opened BwCollect
  import opened BwConsolidate
  import opened BwInner
  import opened BwInnerList

  // ----- one base node ------------------------------------------------------------------------

  /** Entries written so far and what is still to be merged make up `total`. */
  ghost predicate ToMerge(base: seq<Entry>, i: nat, p: seq<Delta>, done: seq<Entry>, total: seq<Entry>) {
    i <= |base| && done + KeyMerged(base[i..], p) == total
  }

  lemma MergeBase(base: seq<Entry>, i: nat, p: seq<Delta>, done: seq<Entry>, total: seq<Entry>)
    requires ToMerge(base, i, p, done, total) && p != [] && i < |base| && base[i].key < p[0].key
    ensures ToMerge(base, i + 1, p, done + [base[i]], total) && |done| < |total|
  {
    assert base[i..][1..] == base[i + 1..];
    Assoc(done, [base[i]], KeyMerged(base[i + 1..], p));
  }

  lemma MergeDelta(base: seq<Entry>, i: nat, p: seq<Delta>, done: seq<Entry>, total: seq<Entry>)
    requires ToMerge(base, i, p, done, total) && p != [] && (i < |base| ==> p[0].key <= base[i].key)
    ensures var i' := if i < |base| && p[0].key == base[i].key then i + 1 else i;
            ToMerge(base, i', p[1..], done + EntryOf(p[0]), total) && |done + EntryOf(p[0])| <= |total|
  {
    var i' := if i < |base| && p[0].key == base[i].key then i + 1 else i;
    assert i' == i + 1 ==> base[i..][1..] == base[i + 1..];
    assert i == |base| ==> base[i..] == [];
    Assoc(done, EntryOf(p[0]), KeyMerged(base[i'..], p[1..]));
  }

  lemma MergeRest(base: seq<Entry>, i: nat, p: seq<Delta>, done: seq<Entry>, total: seq<Entry>)
    requires ToMerge(base, i, p, done, total) && p == []
    ensures done + base[i..] == total
  {
  }

  /** The merge of the items of a base node with the pending deltas below the high key. */
  method MergeItems(items: seq<Entry>, high: Bound, sss: SortedSmallSet, out: LeafBuilder)
    requires sss.Valid() && SortedDeltas(sss.Contents())
    requires |out.items| + |AtBaseNode(items, high, sss.Contents()).out| <= out.capacity
    modifies sss`start, out`items
    ensures sss.Valid() && sss.Contents() == old(AtBaseNode(items, high, sss.Contents()).rest)
    ensures out.items == old(out.items) + old(AtBaseNode(items, high, sss.Contents()).out)
  {
    ghost var p := sss.Contents();
    var base := items[..CutBelow(items, high)];
    var sssEnd := EndBelow(sss, high);
    ghost var n := sssEnd - sss.start;
    assert sss.Lists(p[..n], sssEnd);
    MergeTo(base, sss, sssEnd, out, p[..n]);
    assert sss.Contents() == p[n..];
  }

  method MergeTo(base: seq<Entry>, sss: SortedSmallSet, sssEnd: nat, out: LeafBuilder, ghost pending: seq<Delta>)
    requires sss.Lists(pending, sssEnd)
    requires |out.items| + |KeyMerged(base, pending)| <= out.capacity
    modifies sss`start, out`items
    ensures sss.start == sssEnd
    ensures out.items == old(out.items) + KeyMerged(base, pending)
  {
    var i := 0;
    ghost var p, total := pending, out.items + KeyMerged(base, pending);
    assert base[0..] == base;
    while sss.start != sssEnd
      invariant sss.Lists(p, sssEnd) && ToMerge(base, i, p, out.items, total)
      decreases |p| + |base| - i
    {
      if i < |base| && base[i].key < sss.data[sss.start].key {
        MergeBase(base, i, p, out.items, total);
        out.PushBack([base[i]]);
        i := i + 1;
      } else {
        MergeDelta(base, i, p, out.items, total);
        if i < |base| && base[i].key == sss.data[sss.start].key {
          i := i + 1;
        }
        PushFront(sss, out, p, sssEnd);
        p := p[1..];
      }
    }
    MergeRest(base, i, p, out.items, total);
    out.PushBack(base[i..]);
  }

  // ----- a whole chain ------------------------------------------------------------------------

  /** What is collected from `n` on is `g`; base nodes are cut at the high key of the branch. */
  ghost predicate Heading(n: Inner, high: Bound, p: seq<Delta>, leftmost: NodeId, g: Gathered) {
    && Good(n) && BwInnerList.Ready(n, p) && BwInnerList.Placed(n, leftmost)
    && (n.Base? ==> g == AtBaseNode(Items(n, leftmost), high, p))
    && (!n.Base? ==> g == Gather(n, p, leftmost) && Upper(n) == high)
  }

  lemma HeadingStart(c: Inner, p: seq<Delta>, leftmost: NodeId)
    requires Good(c) && BwInnerList.Ready(c, p) && BwInnerList.Placed(c, leftmost)
    ensures Heading(c, Upper(c), p, leftmost, Gather(c, p, leftmost))
  {
  }

  lemma HeadingCut(n: Inner, high: Bound, p: seq<Delta>, leftmost: NodeId, g: Gathered)
    requires Heading(n, high, p, leftmost, g) && n.Cut?
    ensures Heading(n.child, high, p, leftmost, g)
  {
    PlacedOn(n, leftmost);
  }

  lemma HeadingDelta(n: Inner, high: Bound, p: seq<Delta>, leftmost: NodeId, g: Gathered)
    requires Heading(n, high, p, leftmost, g) && (n.Add? || n.Drop?)
    ensures Heading(n.child, high, Take(p, DeltaOf(n)), leftmost, g)
  {
    GatherOn(n, p, leftmost);
    GatherStep(n, p, leftmost);
  }

  lemma GatherStep(n: Inner, p: seq<Delta>, leftmost: NodeId)
    requires n.Add? || n.Drop?
    ensures Gather(n, p, leftmost) == Gather(n.child, Take(p, DeltaOf(n)), leftmost) && Upper(n) == Upper(n.child)
    ensures n.child.Base? ==>
              Gather(n, p, leftmost) == AtBaseNode(Items(n.child, leftmost), Upper(n), Take(p, DeltaOf(n)))
  {
    var q := Take(p, DeltaOf(n));
    assert n.child.Base? ==> Gather(n.child, q, leftmost) == AtBaseNode(Items(n.child, leftmost), n.child.high, q);
  }

  /** CollectAllSepsOnInnerRecursive. */
  method GatherAll(c: Inner, leftmost: NodeId, sss: SortedSmallSet, out: LeafBuilder)
    requires sss.Valid() && Good(c) && BwInnerList.Ready(c, sss.Contents()) && BwInnerList.Placed(c, leftmost)
    requires sss.end + BwInner.Depth(c) <= sss.data.Length
    requires |out.items| + |Gather(c, sss.Contents(), leftmost).out| <= out.capacity
    modifies sss, sss.data, out`items
    ensures sss.Valid() && sss.end <= old(sss.end) + BwInner.Depth(c)
    ensures var g := old(Gather(c, sss.Contents(), leftmost));
            out.items == old(out.items) + g.out && sss.Contents() == g.rest
    decreases c
  {
    ghost var g := Gather(c, sss.Contents(), leftmost);
    var high := Upper(c);
    HeadingStart(c, sss.Contents(), leftmost);
    var n := c;
    while !n.Base?
      invariant n == c || n < c
      invariant sss.Valid() && out.items == old(out.items) && Heading(n, high, sss.Contents(), leftmost, g)
      invariant sss.end + BwInner.Depth(n) <= old(sss.end) + BwInner.Depth(c)
      decreases n
    {
      if n.Join? {
        GatherBranches(n, leftmost, sss, out, g);
        return;
      }
      if n.Cut? {
        HeadingCut(n, high, sss.Contents(), leftmost, g);
      } else {
        HeadingDelta(n, high, sss.Contents(), leftmost, g);
        sss.Insert(DeltaOf(n));
      }
      n := n.child;
    }
    MergeItems(Items(n, leftmost), high, sss, out);
  }

  method GatherBranches(c: Inner, leftmost: NodeId, sss: SortedSmallSet, out: LeafBuilder, ghost g: Gathered)
    requires c.Join? && sss.Valid() && Good(c)
    requires BwInnerList.Ready(c, sss.Contents()) && BwInnerList.Placed(c, leftmost)
    requires g == Gather(c, sss.Contents(), leftmost)
    requires sss.end + BwInner.Depth(c) <= sss.data.Length && |out.items| + |g.out| <= out.capacity
    modifies sss, sss.data, out`items
    ensures sss.Valid() && sss.end <= old(sss.end) + BwInner.Depth(c)
    ensures out.items == old(out.items) + g.out && sss.Contents() == g.rest
    decreases c, 0
  {
    ghost var l := BranchesOk(c, sss.Contents(), leftmost);
    ghost var was := out.items;
    GatherAll(c.child, leftmost, sss, out);
    GatherAll(c.right, leftmost, sss, out);
    Assoc(was, l.out, Gather(c.right, l.rest, leftmost).out);
  }

  lemma BranchesOk(c: Inner, p: seq<Delta>, leftmost: NodeId) returns (l: Gathered)
    requires c.Join? && Good(c) && BwInnerList.Ready(c, p) && BwInnerList.Placed(c, leftmost)
    ensures Good(c.child) && Good(c.right) && l == Gather(c.child, p, leftmost)
    ensures BwInnerList.Ready(c.child, p) && BwInnerList.Ready(c.right, l.rest)
    ensures BwInnerList.Placed(c.child, leftmost) && BwInnerList.Placed(c.right, leftmost)
    ensures var r := Gather(c.right, l.rest, leftmost);
            Gather(c, p, leftmost) == Gathered(l.out + r.out, r.rest)
  {
    PlacedOn(c, leftmost);
    JoinRange(c);
    GatherOk(c.child, p, leftmost);
    l := Gather(c.child, p, leftmost);
  }

  /** CollectAllSepsOnInner: the stack array holds as many deltas as the chain is deep and the new node as
      many items as the chain counts, of which the first is the low key with the first child; neither is
      ever overrun, and the node is filled exactly. */
  method Consolidate(c: Inner, depth: nat) returns (n: Inner)
    requires Good(c)
    ensures n == BwInnerList.Consolidated(c, depth) && 1 + |n.seps| == BwInnerList.ItemCount(c)
    ensures Good(n) && Seps(n) == Seps(c) && First(n) == First(c) && Lowest(n) == Lowest(c) && Upper(n) == Upper(c)
    ensures BwInner.Depth(n) == depth
  {
    BwInnerList.ConsolidatedOk(c, depth);
    FillsExactly(c, depth);
    var out := new LeafBuilder(BwInnerList.ItemCount(c) - 1);
    var sss := new SortedSmallSet(BwInner.Depth(c));
    GatherAll(c, First(c), sss, out);
    n := Base(Lowest(c), First(c), out.items, Upper(c), depth);
  }
}
