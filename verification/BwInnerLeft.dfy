/** The left-sibling search of the Bw-tree: the child just before a separator, found by taking two items
    off the high end of a base node and the deltas over it. */
module BwInnerLeft {
  import opened Entries
  import opened BwChain
  import opened BwCollect
  import opened BwInner
  import opened BwInnerList
  import opened BwConsolidate
  import BwInnerBuild

  /** `s` is the last separator below `k`. */
  ghost predicate LastBelow(m: map<Key, Value>, k: Key, s: Key) {
    s in m && s < k && (forall x :: x in m && x < k ==> x <= s)
  }

  /** The left neighbour of the child at separator `k`. */
  ghost predicate LeftOf(m: map<Key, Value>, first: NodeId, k: Key, id: Value) {
    || (exists s :: LastBelow(m, k, s) && m[s] == id)
    || ((forall x :: x in m ==> k <= x) && id == first)
  }

  /** The left neighbour is where a key just below the separator would be routed. */
  lemma LeftIsRoute(m: map<Key, Value>, first: NodeId, k: Key, near: Key, id: Value)
    requires LeftOf(m, first, k, id) && near < k && (forall x :: x in m && x < k ==> x <= near)
    ensures Routes(m, first, near, id)
  {
    if s :| LastBelow(m, k, s) && m[s] == id {
      assert LastUpTo(m, near, s);
    }
  }

  // ----- taking items from the high end -------------------------------------------------------

  /** What `x` maps to in base items with pending deltas over them. */
  function Shown(base: seq<Entry>, p: seq<Delta>, x: Key): Option<Value> {
    Overlay(p, x, LeafGet(base, x))
  }

  predicate InPlay(x: Key, k: Key, counter: nat) {
    if counter == 0 then x <= k else x < k
  }

  ghost predicate AheadAt(m: map<Key, Value>, k: Key, counter: nat, base: seq<Entry>, p: seq<Delta>, x: Key) {
    Shown(base, p, x) == if InPlay(x, k, counter) then MapGet(m, x) else None
  }

  /** The remaining items are the separators up to `k`, or those below it once `k` itself is taken. */
  ghost predicate Ahead(m: map<Key, Value>, k: Key, counter: nat, base: seq<Entry>, p: seq<Delta>) {
    && Sorted(KeysOf(base)) && SortedDeltas(p)
    && forall x :: AheadAt(m, k, counter, base, p, x)
  }

  /** Between two lists only `s` differs, and nothing else lies at or above it. */
  ghost predicate PoppedAt(base: seq<Entry>, p: seq<Delta>, base': seq<Entry>, p': seq<Delta>, s: Key,
      found: Option<Value>, x: Key) {
    && Shown(base, p, x) == (if x == s then found else if x < s then Shown(base', p', x) else None)
    && (s <= x ==> Shown(base', p', x) == None)
  }

  ghost predicate Popped(base: seq<Entry>, p: seq<Delta>, base': seq<Entry>, p': seq<Delta>, s: Key,
      found: Option<Value>) {
    && Sorted(KeysOf(base')) && SortedDeltas(p')
    && forall x :: PoppedAt(base, p, base', p', s, found, x)
  }

  lemma LastGet(base: seq<Entry>, x: Key)
    requires Sorted(KeysOf(base)) && base != []
    ensures var last, rest := base[|base| - 1], base[..|base| - 1];
            && Sorted(KeysOf(rest))
            && LeafGet(base, x) == (if x == last.key then Some(last.val) else LeafGet(rest, x))
            && (last.key <= x ==> LeafGet(rest, x) == None)
  {
    var last, rest := base[|base| - 1], base[..|base| - 1];
    assert KeysOf(rest) == KeysOf(base)[..|rest|];
    assert base == rest + [last];
    forall i | 0 <= i < |rest| ensures rest[i].key < last.key { assert KeysOf(base)[i] < KeysOf(base)[|rest|]; }
    JoinRuns(rest, [last], x);
    HeadIs([last], last.key, x);
    LeafGetIff(rest, x);
  }

  lemma LastFind(p: seq<Delta>, x: Key)
    requires SortedDeltas(p) && p != []
    ensures var last, rest := p[|p| - 1], p[..|p| - 1];
            && SortedDeltas(rest)
            && Find(p, x) == (if x == last.key then Some(last) else Find(rest, x))
            && (last.key <= x ==> Find(rest, x) == None)
  {
    var n := |p| - 1;
    assert p[0..n] == p[..n] && p[0..|p|] == p;
    FindPart(p, 0, n, x);
    FindPart(p, 0, |p|, x);
  }

  lemma NothingAbove(base: seq<Entry>, p: seq<Delta>, x: Key)
    requires Sorted(KeysOf(base)) && SortedDeltas(p)
    ensures base != [] && base[|base| - 1].key < x ==> LeafGet(base, x) == None
    ensures p != [] && p[|p| - 1].key < x ==> Find(p, x) == None
  {
    if base != [] { LastGet(base, x); }
    if p != [] { LastFind(p, x); }
  }

  /** Taking the last base item when no pending delta reaches it. */
  lemma PopBase(base: seq<Entry>, p: seq<Delta>)
    requires Sorted(KeysOf(base)) && SortedDeltas(p) && base != []
    requires (p != [] ==> p[|p| - 1].key < base[|base| - 1].key)
    ensures Popped(base, p, base[..|base| - 1], p, base[|base| - 1].key, Some(base[|base| - 1].val))
  {
    var last, rest := base[|base| - 1], base[..|base| - 1];
    forall x ensures PoppedAt(base, p, rest, p, last.key, Some(last.val), x) {
      LastGet(base, x);
      NothingAbove(base, p, x);
    }
    LastGet(base, 0);
  }

  /** Taking the last pending delta when no base item reaches it. */
  lemma PopDelta(base: seq<Entry>, p: seq<Delta>)
    requires Sorted(KeysOf(base)) && SortedDeltas(p) && p != []
    requires (base != [] ==> base[|base| - 1].key < p[|p| - 1].key)
    ensures Popped(base, p, base, p[..|p| - 1], p[|p| - 1].key, Effect(p[|p| - 1]))
  {
    var last, rest := p[|p| - 1], p[..|p| - 1];
    forall x ensures PoppedAt(base, p, base, rest, last.key, Effect(last), x) {
      LastFind(p, x);
      NothingAbove(base, p, x);
    }
    LastFind(p, 0);
  }

  /** A pending delta takes the base item with its key along. */
  lemma PopBoth(base: seq<Entry>, p: seq<Delta>)
    requires Sorted(KeysOf(base)) && SortedDeltas(p) && base != [] && p != [] && base[|base| - 1].key == p[|p| - 1].key
    ensures Popped(base, p, base[..|base| - 1], p[..|p| - 1], p[|p| - 1].key, Effect(p[|p| - 1]))
  {
    var last, rest, under := p[|p| - 1], p[..|p| - 1], base[..|base| - 1];
    forall x ensures PoppedAt(base, p, under, rest, last.key, Effect(last), x) {
      LastGet(base, x);
      LastFind(p, x);
    }
    LastGet(base, 0);
    LastFind(p, 0);
  }

  /** What taking an item at `s` means for the search: the first item found is `k` itself, the second is
      its left neighbour, and a deleted one is no item at all. */
  lemma Took(m: map<Key, Value>, k: Key, counter: nat, base: seq<Entry>, p: seq<Delta>, base': seq<Entry>,
      p': seq<Delta>,
             s: Key, found: Option<Value>)
    requires Ahead(m, k, counter, base, p) && Popped(base, p, base', p', s, found)
    requires k in m && counter < 2
    ensures found.None? ==> Ahead(m, k, counter, base', p')
    ensures found.Some? && counter == 0 ==> Ahead(m, k, 1, base', p')
    ensures found.Some? && counter == 1 ==> LastBelow(m, k, s) && m[s] == found.value
  {
    assert AheadAt(m, k, counter, base, p, s) && PoppedAt(base, p, base', p', s, found, s);
    assert AheadAt(m, k, counter, base, p, k) && PoppedAt(base, p, base', p', s, found, k);
    if found.None? {
      forall x ensures AheadAt(m, k, counter, base', p', x) {
        assert AheadAt(m, k, counter, base, p, x) && PoppedAt(base, p, base', p', s, found, x);
      }
    } else if counter == 0 {
      forall x ensures AheadAt(m, k, 1, base', p', x) {
        assert AheadAt(m, k, counter, base, p, x) && PoppedAt(base, p, base', p', s, found, x);
      }
    } else {
      forall x | x in m && x < k ensures x <= s {
        assert AheadAt(m, k, counter, base, p, x) && PoppedAt(base, p, base', p', s, found, x);
      }
    }
  }

  /** Nothing is left: `k` was taken before, and no separator lies below it. */
  lemma NothingLeft(m: map<Key, Value>, k: Key, counter: nat, base: seq<Entry>, p: seq<Delta>)
    requires Ahead(m, k, counter, base, p) && k in m && base == [] && p == []
    ensures counter != 0 && forall x :: x in m ==> k <= x
  {
    assert AheadAt(m, k, counter, base, p, k);
    forall x | x in m ensures k <= x {
      assert AheadAt(m, k, counter, base, p, x);
    }
  }

  /** The outcome of taking the item at `s` when `i` base items and `j` deltas then remain. */
  ghost predicate Taken(m: map<Key, Value>, k: Key, counter: nat, seps: seq<Entry>, i: nat, p: seq<Delta>, j: nat,
      s: Key, found: Option<Value>)
    requires i <= |seps| && j <= |p|
  {
    if found.None? then Ahead(m, k, counter, seps[..i], p[..j])
    else if counter == 0 then Ahead(m, k, 1, seps[..i], p[..j])
    else LastBelow(m, k, s) && m[s] == found.value
  }

  lemma TakeBase(m: map<Key, Value>, k: Key, counter: nat, seps: seq<Entry>, i: nat, p: seq<Delta>, j: nat)
    requires i <= |seps| && j <= |p| && Ahead(m, k, counter, seps[..i], p[..j]) && k in m && counter < 2
    requires i > 0 && (j > 0 ==> p[j - 1].key < seps[i - 1].key)
    ensures Taken(m, k, counter, seps, i - 1, p, j, seps[i - 1].key, Some(seps[i - 1].val))
  {
    var base, q := seps[..i], p[..j];
    PopBase(base, q);
    assert base[..i - 1] == seps[..i - 1];
    Took(m, k, counter, base, q, seps[..i - 1], q, seps[i - 1].key, Some(seps[i - 1].val));
  }

  lemma TakeDelta(m: map<Key, Value>, k: Key, counter: nat, seps: seq<Entry>, i: nat, p: seq<Delta>, j: nat)
    requires i <= |seps| && j <= |p| && Ahead(m, k, counter, seps[..i], p[..j]) && k in m && counter < 2
    requires j > 0 && (i > 0 ==> seps[i - 1].key < p[j - 1].key)
    ensures Taken(m, k, counter, seps, i, p, j - 1, p[j - 1].key, Effect(p[j - 1]))
  {
    var base, q := seps[..i], p[..j];
    PopDelta(base, q);
    assert q[..j - 1] == p[..j - 1];
    Took(m, k, counter, base, q, base, p[..j - 1], p[j - 1].key, Effect(p[j - 1]));
  }

  lemma TakeBoth(m: map<Key, Value>, k: Key, counter: nat, seps: seq<Entry>, i: nat, p: seq<Delta>, j: nat)
    requires i <= |seps| && j <= |p| && Ahead(m, k, counter, seps[..i], p[..j]) && k in m && counter < 2
    requires i > 0 && j > 0 && seps[i - 1].key == p[j - 1].key
    ensures Taken(m, k, counter, seps, i - 1, p, j - 1, p[j - 1].key, Effect(p[j - 1]))
  {
    var base, q := seps[..i], p[..j];
    PopBoth(base, q);
    assert base[..i - 1] == seps[..i - 1] && q[..j - 1] == p[..j - 1];
    Took(m, k, counter, base, q, seps[..i - 1], p[..j - 1], p[j - 1].key, Effect(p[j - 1]));
  }

  /** Takes two items off the high end; the second is the answer. */
  method TakeTwo(seps: seq<Entry>, first: NodeId, p: seq<Delta>, k: Key, last: nat, ghost m: map<Key, Value>)
      returns (id: Value)
    requires k in m && last <= |seps| && Ahead(m, k, 0, seps[..last], p)
    ensures LeftOf(m, first, k, id)
  {
    var i: nat, j: nat, counter: nat := last, |p|, 0;
    assert p[..j] == p;
    while true
      invariant i <= |seps| && j <= |p| && counter < 2 && Ahead(m, k, counter, seps[..i], p[..j])
      decreases i + j
    {
      if j == 0 && i == 0 {
        NothingLeft(m, k, counter, seps[..i], p[..j]);
        return first;
      } else if j == 0 || (i > 0 && p[j - 1].key < seps[i - 1].key) {
        TakeBase(m, k, counter, seps, i, p, j);
        if counter == 1 { return seps[i - 1].val; }
        i, counter := i - 1, counter + 1;
      } else {
        var both := i > 0 && p[j - 1].key == seps[i - 1].key;
        if both {
          TakeBoth(m, k, counter, seps, i, p, j);
          i := i - 1;
        } else {
          TakeDelta(m, k, counter, seps, i, p, j);
        }
        if !p[j - 1].kind.Del? {
          if counter == 1 { return p[j - 1].val; }
          counter := counter + 1;
        }
        j := j - 1;
      }
    }
  }

  // ----- the walk down the chain --------------------------------------------------------------

  function Height(c: Inner): nat {
    if c.Base? then 0 else 1 + Height(c.child)
  }

  ghost predicate GatheredAt(c: Inner, n: Inner, p: seq<Delta>, k: Key, x: Key) {
    && (x <= k ==> MapGet(Seps(c), x) == Overlay(p, x, MapGet(Seps(n), x)))
    && (k < x ==> Find(p, x) == None)
  }

  /** The deltas gathered on the way to `n` are those of `c` on keys up to `k`. */
  ghost predicate GatheredTo(c: Inner, n: Inner, p: seq<Delta>, k: Key) {
    SortedDeltas(p) && forall x :: GatheredAt(c, n, p, k, x)
  }

  lemma GatherPast(c: Inner, n: Inner, p: seq<Delta>, k: Key)
    requires Good(n) && (n.Add? || n.Drop?) && GatheredTo(c, n, p, k)
    ensures GatheredTo(c, n.child, if n.item.key <= k then Take(p, DeltaOf(n)) else p, k)
  {
    TakeOk(p, DeltaOf(n));
    var p' := if n.item.key <= k then Take(p, DeltaOf(n)) else p;
    forall x ensures GatheredAt(c, n.child, p', k, x) {
      assert GatheredAt(c, n, p, k, x);
      SepsDelta(n, x);
    }
  }

  lemma SepsDelta(c: Inner, x: Key)
    requires Good(c) && (c.Add? || c.Drop?)
    ensures MapGet(Seps(c), x) == if x == c.item.key then Effect(DeltaOf(c)) else MapGet(Seps(c.child), x)
  {
  }

  lemma CutPast(c: Inner, n: Inner, p: seq<Delta>, k: Key)
    requires Good(n) && n.Cut? && GatheredTo(c, n, p, k) && Below(k, Upper(n))
    ensures GatheredTo(c, n.child, p, k) && Below(k, Upper(n.child))
  {
    SepsWithin(n.child, n.item.key);
    forall x ensures GatheredAt(c, n.child, p, k, x) {
      assert GatheredAt(c, n, p, k, x);
      if x <= k { RestrictGet(Seps(n.child), n.item, x); }
    }
  }

  /** A plain node stands for itself. */
  lemma FreshStart(c: Inner, n: Inner, k: Key)
    requires Seps(n) == Seps(c)
    ensures GatheredTo(c, n, [], k)
  {
    forall x ensures GatheredAt(c, n, [], k, x) { }
  }

  /** At the base node the gathered deltas and the items up to `k` are what the search works on. */
  lemma ReadyToTake(c: Inner, n: Inner, p: seq<Delta>, k: Key)
    requires Good(n) && n.Base? && GatheredTo(c, n, p, k)
    ensures Ahead(Seps(c), k, 0, n.seps[..BwInner.UpperBound(KeysOf(n.seps), k)], p)
  {
    var u := BwInner.UpperBound(KeysOf(n.seps), k);
    var base := n.seps[..u];
    assert KeysOf(base) == KeysOf(n.seps)[..u];
    forall x ensures AheadAt(Seps(c), k, 0, base, p, x) {
      assert GatheredAt(c, n, p, k, x);
      UpToGet(n.seps, k, u, x);
      MapOfGet(n.seps, x);
    }
  }

  lemma UpToGet(seps: seq<Entry>, k: Key, u: nat, x: Key)
    requires Sorted(KeysOf(seps)) && u <= |seps|
    requires (u > 0 ==> seps[u - 1].key <= k) && (u < |seps| ==> k < seps[u].key)
    ensures LeafGet(seps[..u], x) == if x <= k then LeafGet(seps, x) else None
  {
    SplitKeys(seps, u);
    UpTo(seps[..u], k);
    Above(seps[u..], k);
    TwoRuns(seps[..u], seps[u..], k, x);
  }

  lemma SplitKeys(seps: seq<Entry>, u: nat)
    requires Sorted(KeysOf(seps)) && u <= |seps|
    ensures seps == seps[..u] + seps[u..] && Sorted(KeysOf(seps[..u])) && Sorted(KeysOf(seps[u..]))
  {
    assert KeysOf(seps[..u]) == KeysOf(seps)[..u] && KeysOf(seps[u..]) == KeysOf(seps)[u..];
  }

  lemma UpTo(l: seq<Entry>, k: Key)
    requires Sorted(KeysOf(l)) && (l != [] ==> l[|l| - 1].key <= k)
    ensures forall i :: 0 <= i < |l| ==> l[i].key <= k
  {
    forall i | 0 <= i < |l| ensures l[i].key <= k { assert KeysOf(l)[i] <= KeysOf(l)[|l| - 1]; }
  }

  lemma Above(r: seq<Entry>, k: Key)
    requires Sorted(KeysOf(r)) && (r != [] ==> k < r[0].key)
    ensures forall j :: 0 <= j < |r| ==> k < r[j].key
  {
    forall j | 0 <= j < |r| ensures k < r[j].key { assert KeysOf(r)[0] <= KeysOf(r)[j]; }
  }

  lemma TwoRuns(l: seq<Entry>, r: seq<Entry>, k: Key, x: Key)
    requires Sorted(KeysOf(l)) && Sorted(KeysOf(r))
    requires (forall i :: 0 <= i < |l| ==> l[i].key <= k) && (forall j :: 0 <= j < |r| ==> k < r[j].key)
    ensures LeafGet(l, x) == if x <= k then LeafGet(l + r, x) else None
  {
    JoinRuns(l, r, x);
    LeafGetIff(l, x);
    LeafGetIff(r, x);
  }

  /** FindLeftSibling: the child just before the one at separator `k`, in the consolidated order. The
      deltas go into a stack array sized by the depth of the chain, which they never overrun. A merge delta
      on the way makes the search start over on the consolidated node. */
  method FindLeft(c: Inner, k: Key) returns (id: Value)
    requires Good(c) && k in Seps(c)
    ensures LeftOf(Seps(c), First(c), k, id)
  {
    var sss := new SortedSmallSet(BwInner.Depth(c));
    var n := c;
    SepsWithin(c, k);
    FreshStart(c, c, k);
    while !n.Base?
      invariant !n.Base? ==> sss.end + BwInner.Depth(n) <= sss.data.Length
      invariant sss.Valid() && Good(n) && First(n) == First(c) && Below(k, Upper(n))
      invariant GatheredTo(c, n, sss.Contents(), k)
      decreases Height(n)
    {
      if n.Join? {
        n := BwInnerBuild.Consolidate(c, BwInner.Depth(c) + 1);
        sss.Invalidate();
        FreshStart(c, n, k);
      } else if n.Cut? {
        CutPast(c, n, sss.Contents(), k);
        n := n.child;
      } else {
        GatherPast(c, n, sss.Contents(), k);
        if n.item.key <= k { sss.Insert(DeltaOf(n)); }
        n := n.child;
      }
    }
    ReadyToTake(c, n, sss.Contents(), k);
    id := TakeTwo(n.seps, n.first, sss.Contents(), k, BwInner.UpperBound(KeysOf(n.seps), k), Seps(c));
  }
}
