/** Remove takes out exactly the tuple its descent ends in, and the tree stays well formed. */
module ArtRemove {
  import opened ArtNode
  import opened ArtTree
  import opened ArtInsert

  /** `getSecondChild` of a four-slot node: the first child under another byte. */
  function OtherKid(kids: seq<Node>, b: nat): (x: nat)
    requires b < |kids|
    ensures x <= |kids| && (x < |kids| ==> x != b && !kids[x].Null?)
    ensures x == |kids| ==> forall y :: 0 <= y < |kids| && y != b ==> kids[y].Null?
  {
    var first := FirstKid(kids, 0);
    if first != b then first else FirstKid(kids, b + 1)
  }

  /** A node with two children, one of which goes: the other takes its place. */
  function Dissolve(n: Node, b: Byte): Node
    requires n.Inner? && |n.prefix| == STORED && |n.kids| == 256
    requires OtherKid(n.kids, b) < 256
    requires n.kids[OtherKid(n.kids, b)].Inner? ==> |n.kids[OtherKid(n.kids, b)].prefix| == STORED
  {
    var x := OtherKid(n.kids, b);
    if n.kids[x].Inner? then AddPrefixBefore(n.kids[x], n, x) else n.kids[x]
  }

  /** `removeAndShrink`: in place, or in a copy of the next smaller kind. */
  function DropKid(n: Node, b: Byte, root: bool): Node
    requires n.Inner? && |n.prefix| == STORED && |n.kids| == 256
  {
    if root || !IsUnderfull(n) then n.(kids := n.kids[b := Null])
    else Inner(Smaller(n.kind), SetPrefix(ZEROS, n.prefix, n.len), n.len, n.kids[b := Null])
  }

  /** With two children there is another one, and the node is a four-slot node. */
  lemma TwoKids(n: Node, b: Byte, level: nat, size: nat, key: Loader)
    requires n.Inner? && Sized(n) && Shape(n, level, size, key) && !n.kids[b].Null? && StoredCount(n) == 2
    ensures n.kind == N4 && Count(n.kids) == 2 && OtherKid(n.kids, b) < 256
    ensures WellFormed(n.kids[OtherKid(n.kids, b)], level + n.len + 1, size, key)
    ensures n.kids[OtherKid(n.kids, b)].Inner? ==> |n.kids[OtherKid(n.kids, b)].prefix| == STORED
    ensures forall y :: 0 <= y < 256 && y != b && y != OtherKid(n.kids, b) ==> n.kids[y].Null?
  {
    CountUpdate(n.kids, b, Null);
    var x := OtherKid(n.kids, b);
    if x == 256 {
      CountNull(n.kids[b := Null]);
    } else {
      assert !n.kids[b := Null][x].Null?;
      CountOne(n.kids[b := Null], x);
      forall y | 0 <= y < 256 && y != b && y != x ensures n.kids[y].Null? {
        assert n.kids[b := Null][y].Null?;
      }
      KidIs(n, x, level, size, key);
    }
  }

  function Remove(n: Node, k: Key, tid: Tid, level: nat, size: nat, key: Loader, root: bool): Node
    requires n.Inner? && Shape(n, level, size, key) && (root || Sized(n)) && |k| == size
    decreases n
  {
    match CheckPrefix(n, k, level)
    case NoMatch => n
    case Match(at, _) =>
      var b := k[at];
      var kid := n.kids[b];
      KidIs(n, b, level, size, key);
      match kid
      case Null => n
      case Leaf(t) =>
        if t != tid then n
        else if !root && StoredCount(n) == 2 then TwoKids(n, b, level, size, key); Dissolve(n, b)
        else DropKid(n, b, root)
      case Inner(_, _, _, _) => n.(kids := n.kids[b := Remove(kid, k, tid, at + 1, size, key, false)])
  }

  // ----- prefixes -----------------------------------------------------------------------------

  /** The bytes a dissolved node leaves in front of its last child. */
  lemma AddPrefixByte(n: Node, above: Node, b: Byte, x: nat)
    requires n.Inner? && above.Inner? && |n.prefix| == STORED && |above.prefix| == STORED
    requires x < Min(STORED, n.len + above.len + 1)
    ensures AddPrefixBefore(n, above, b).prefix[x] == PathByte(n, above, b, x)
  {
    var c := Min(STORED, above.len + 1);
    var moved := Min(n.len, STORED - c);
    var p1 := n.prefix[..c] + n.prefix[..moved] + n.prefix[c + moved..];
    if x >= c {
      assert p1[x] == n.prefix[..moved][x - c];
    }
    var p2 := Copy(p1, above.prefix, Min(c, above.len));
    if x < Min(c, above.len) {
      assert p2[x] == p2[..Min(c, above.len)][x] == above.prefix[..Min(c, above.len)][x];
    }
  }

  lemma AddPrefixOk(n: Node, above: Node, b: Byte, level: nat, size: nat, key: Loader)
    requires n.Inner? && above.Inner? && PrefixOk(above, level, key) && level + above.len < size
    requires Sized(n) && Shape(n, level + above.len + 1, size, key)
    requires forall t :: Has(n, t) ==> Has(above, t) && level + above.len < |key(t)| && key(t)[level + above.len] == b
    ensures WellFormed(AddPrefixBefore(n, above, b), level, size, key)
  {
    var r := AddPrefixBefore(n, above, b);
    AllSame(n, r);
    forall t | Has(r, t) ensures level + r.len < |key(t)| && Stored(r, level, key(t)) {
      AddPrefixBytes(n, above, b, level, key, t);
    }
    forall t, u | Both(r, t, u) ensures SharePath(key(t), key(u), level + r.len) {
      assert Both(n, t, u);
    }
    BelowKids(n, r, level + above.len + 1, level, size, key);
  }

  lemma AddPrefixBytes(n: Node, above: Node, b: Byte, level: nat, key: Loader, t: Tid)
    requires n.Inner? && above.Inner? && PrefixOk(above, level, key) && PrefixOk(n, level + above.len + 1, key)
    requires Has(n, t) && Has(above, t) && level + above.len < |key(t)| && key(t)[level + above.len] == b
    ensures var r := AddPrefixBefore(n, above, b);
            && level + r.len < |key(t)|
            && r.prefix[..Min(STORED, r.len)] == key(t)[level..level + Min(STORED, r.len)]
  {
    var r, a := AddPrefixBefore(n, above, b), key(t);
    var m := Min(STORED, r.len);
    forall x | 0 <= x < m ensures r.prefix[x] == a[level..level + m][x] {
      AddPrefixByte(n, above, b, x);
      AddPrefixAt(n, above, b, level, key, t, x);
    }
    SamePrefix(r.prefix, a[level..level + m]);
  }

  lemma SamePrefix(p: seq<Byte>, q: seq<Byte>)
    requires |q| <= |p| && (forall x :: 0 <= x < |q| ==> p[x] == q[x])
    ensures p[..|q|] == q
  {
  }

  /** Byte `x` of the path through both nodes. */
  function PathByte(n: Node, above: Node, b: Byte, x: nat): Byte
    requires n.Inner? && above.Inner? && |n.prefix| == STORED && |above.prefix| == STORED
    requires x < Min(STORED, n.len + above.len + 1)
  {
    if x < above.len then above.prefix[x] else if x == above.len then b else n.prefix[x - above.len - 1]
  }

  lemma AddPrefixAt(n: Node, above: Node, b: Byte, level: nat, key: Loader, t: Tid, x: nat)
    requires n.Inner? && above.Inner? && PrefixOk(above, level, key) && PrefixOk(n, level + above.len + 1, key)
    requires Has(n, t) && Has(above, t) && level + above.len < |key(t)| && key(t)[level + above.len] == b
    requires x < Min(STORED, n.len + above.len + 1)
    ensures level + x < |key(t)| && PathByte(n, above, b, x) == key(t)[level + x]
  {
    if x < above.len {
      StoredByte(above, level, key, t, x);
    } else if x > above.len {
      StoredByte(n, level + above.len + 1, key, t, x - above.len - 1);
    }
  }

  lemma StoredByte(n: Node, level: nat, key: Loader, t: Tid, x: nat)
    requires n.Inner? && PrefixOk(n, level, key) && Has(n, t) && x < Min(STORED, n.len)
    ensures n.prefix[x] == key(t)[level + x]
  {
    var m := Min(STORED, n.len);
    assert Stored(n, level, key(t));
    assert n.prefix[..m][x] == key(t)[level..level + m][x];
  }

  // ----- fewer keys ---------------------------------------------------------------------------

  /** A child replaced by one that holds part of its keys. */
  lemma ShrinkKid(n: Node, r: Node, b: Byte, kid: Node, level: nat, size: nat, key: Loader)
    requires n.Inner? && Shape(n, level, size, key)
    requires r.Inner? && |r.prefix| == STORED && r.len == n.len && r.kids == n.kids[b := kid]
    requires r.prefix[..Min(STORED, n.len)] == n.prefix[..Min(STORED, n.len)]
    requires WellFormed(kid, level + n.len + 1, size, key)
    requires forall t :: Has(kid, t) ==> Has(n.kids[b], t)
    ensures Shape(r, level, size, key)
  {
    forall t | Has(r, t) ensures Has(n, t) {
      var x :| 0 <= x < |r.kids| && Has(r.kids[x], t);
      HasKid(n, x, t);
    }
    forall x, t | 0 <= x < 256 && Has(r.kids[x], t) ensures level + n.len < |key(t)| && key(t)[level + n.len] == x {
      assert Has(n.kids[x], t);
    }
    forall t | Has(r, t) ensures Stored(r, level, key(t)) { assert Stored(n, level, key(t)); }
    forall t, u | Both(r, t, u) ensures SharePath(key(t), key(u), level + r.len) { assert Both(n, t, u); }
    forall x | 0 <= x < 256 ensures KidOk(r, x, level, size, key) {
      if x != b { KidIs(n, x, level, size, key); }
    }
  }

  /** The keys below after a removal that took `gone` out of the child under `b`. */
  lemma RemovedKid(n: Node, r: Node, b: Byte, kid: Node, level: nat, key: Loader, tid: Tid, hit: bool)
    requires n.Inner? && KidsOk(n, level, key) && r.Inner? && r.kids == n.kids[b := kid]
    requires forall t :: Has(kid, t) <==> Has(n.kids[b], t) && !(hit && t == tid)
    requires hit ==> Has(n.kids[b], tid)
    ensures forall t :: Has(r, t) <==> Has(n, t) && !(hit && t == tid)
  {
    forall t ensures Has(r, t) <==> Has(n, t) && !(hit && t == tid) {
      if Has(n, t) && !(hit && t == tid) {
        var x :| 0 <= x < |n.kids| && Has(n.kids[x], t);
        assert Has(r.kids[x], t);
      }
      if Has(r, t) {
        var x :| 0 <= x < |r.kids| && Has(r.kids[x], t);
        assert Has(n.kids[x], t);
        HasKid(n, x, t);
        if hit && x != b {
          assert key(tid)[level + n.len] == b && key(t)[level + n.len] == x;
        }
      }
    }
  }

  // ----- the cases ----------------------------------------------------------------------------

  ghost predicate Removed(n: Node, r: Node, tid: Tid) {
    forall t :: Has(r, t) <==> Has(n, t) && t != tid
  }

  lemma DropOk(n: Node, b: Byte, tid: Tid, level: nat, size: nat, key: Loader, root: bool)
    requires n.Inner? && Shape(n, level, size, key) && (root || Sized(n)) && n.kids[b] == Leaf(tid)
    requires root || StoredCount(n) != 2
    ensures var r := DropKid(n, b, root);
            && Shape(r, level, size, key) && Removed(n, r, tid)
            && (if root then r.kind == n.kind && r.len == n.len else Sized(r))
  {
    var r := DropKid(n, b, root);
    CountUpdate(n.kids, b, Null);
    CountBound(n.kids);
    ShrinkKid(n, r, b, Null, level, size, key);
    RemovedKid(n, r, b, Null, level, key, tid, true);
  }

  lemma DissolveOk(n: Node, b: Byte, tid: Tid, level: nat, size: nat, key: Loader)
    requires n.Inner? && Sized(n) && Shape(n, level, size, key) && n.kids[b] == Leaf(tid) && StoredCount(n) == 2
    ensures OtherKid(n.kids, b) < 256
    ensures (n.kids[OtherKid(n.kids, b)].Inner? ==> |n.kids[OtherKid(n.kids, b)].prefix| == STORED)
    ensures var r := Dissolve(n, b);
            !r.Null? && WellFormed(r, level, size, key) && Removed(n, r, tid)
  {
    TwoKids(n, b, level, size, key);
    var x := OtherKid(n.kids, b);
    var kid, r := n.kids[x], Dissolve(n, b);
    forall t | Has(kid, t)
      ensures Has(n, t) && level + n.len < |key(t)| && key(t)[level + n.len] == x { HasKid(n, x, t); }
    if kid.Inner? {
      AddPrefixOk(kid, n, x, level, size, key);
      AllSame(kid, r);
    }
    forall t ensures Has(r, t) <==> Has(n, t) && t != tid {
      if Has(n, t) && t != tid {
        var y :| 0 <= y < |n.kids| && Has(n.kids[y], t);
        assert y == x;
      }
      if Has(r, t) {
        assert Has(n.kids[x], t) && key(t)[level + n.len] == x;
        assert Has(n.kids[b], tid) && key(tid)[level + n.len] == b;
      }
    }
  }

  /** What a descent finds is in the tree; and a key that is in the tree is found. */
  lemma {:induction false} DescendOk(n: Node, k: Key, level: nat, size: nat, key: Loader)
    requires (n.Inner? ==> Shape(n, level, size, key)) && (n.Leaf? ==> 0 < n.tid) && |k| == size
    ensures var t := Descend(n, k, level, size, key);
            && (t != 0 ==> Has(n, t))
            && (forall u :: Has(n, u) && key(u) == k ==> u == t && 0 < u)
    decreases n
  {
    if n.Inner? {
      var at := level + n.len;
      forall u | Has(n, u) && key(u) == k ensures CheckPrefix(n, k, level).Match? && Has(n.kids[k[at]], u) {
        Selected(n, k, level, key, u);
      }
      if CheckPrefix(n, k, level).Match? {
        DescendIs(n, k, level, size, key);
        DescendOk(n.kids[k[at]], k, at + 1, size, key);
      }
    }
  }

  lemma Selected(n: Node, k: Key, level: nat, key: Loader, u: Tid)
    requires n.Inner? && PrefixOk(n, level, key) && KidsOk(n, level, key) && Has(n, u) && key(u) == k
    ensures CheckPrefix(n, k, level) == Match(level + n.len, n.len > STORED) && Has(n.kids[k[level + n.len]], u)
  {
    assert Stored(n, level, key(u));
    KidOf(n, level, key, u);
  }

  lemma DescendIs(n: Node, k: Key, level: nat, size: nat, key: Loader)
    requires n.Inner? && Shape(n, level, size, key) && |k| == size && CheckPrefix(n, k, level).Match?
    ensures var kid := n.kids[k[level + n.len]];
            && WellFormed(kid, level + n.len + 1, size, key)
            && (kid.Inner? ==> Sized(kid) && Shape(kid, level + n.len + 1, size, key)) && (kid.Leaf? ==> 0 < kid.tid)
            && Descend(n, k, level, size, key) == Descend(kid, k, level + n.len + 1, size, key)
  {
    KidIs(n, k[level + n.len], level, size, key);
  }

  /** What a removal leaves of a subtree: without `tid` if the descent hit it, otherwise unchanged. */
  ghost predicate RemoveGood(n: Node, r: Node, tid: Tid, hit: bool, level: nat, size: nat, key: Loader, root: bool)
    requires n.Inner?
  {
    && !r.Null?
    && (if root then r.Inner? && r.kind == n.kind && r.len == n.len && Shape(r, level, size, key)
        else WellFormed(r, level, size, key))
    && (forall t :: Has(r, t) <==> Has(n, t) && !(t == tid && hit))
  }

  /** Remove takes out the tuple `tid` if the descent for `k` ends in it, and nothing otherwise. */
  lemma {:induction false} RemoveOk(n: Node, k: Key, tid: Tid, level: nat, size: nat, key: Loader, root: bool)
    requires n.Inner? && Shape(n, level, size, key) && (root || Sized(n)) && |k| == size && 0 < tid
    ensures RemoveGood(n, Remove(n, k, tid, level, size, key, root), tid, Descend(n, k, level, size, key) == tid,
        level, size, key, root)
    decreases n
  {
    if CheckPrefix(n, k, level).NoMatch? {
      RemoveNone(n, k, tid, level, size, key, root);
    } else {
      var kid := n.kids[k[level + n.len]];
      if kid.Leaf? {
        RemoveLeaf(n, k, tid, level, size, key, root);
      } else if kid.Null? {
        RemoveNone(n, k, tid, level, size, key, root);
      } else {
        DescendIs(n, k, level, size, key);
        RemoveOk(kid, k, tid, level + n.len + 1, size, key, false);
        RemoveInner(n, k, tid, level, size, key, root);
      }
    }
  }

  lemma RemoveNone(n: Node, k: Key, tid: Tid, level: nat, size: nat, key: Loader, root: bool)
    requires n.Inner? && Shape(n, level, size, key) && (root || Sized(n)) && |k| == size && 0 < tid
    requires CheckPrefix(n, k, level).NoMatch? || n.kids[k[level + n.len]].Null?
    ensures RemoveGood(n, Remove(n, k, tid, level, size, key, root), tid, Descend(n, k, level, size, key) == tid,
        level, size, key, root)
  {
    assert Remove(n, k, tid, level, size, key, root) == n && Descend(n, k, level, size, key) == 0;
  }

  lemma RemoveInner(n: Node, k: Key, tid: Tid, level: nat, size: nat, key: Loader, root: bool)
    requires n.Inner? && Shape(n, level, size, key) && (root || Sized(n)) && |k| == size && 0 < tid
    requires CheckPrefix(n, k, level).Match? && n.kids[k[level + n.len]].Inner?
    requires Sized(n.kids[k[level + n.len]]) && Shape(n.kids[k[level + n.len]], level + n.len + 1, size, key)
    requires var kid := n.kids[k[level + n.len]];
             RemoveGood(kid, Remove(kid, k, tid, level + n.len + 1, size, key, false), tid,
                        Descend(kid, k, level + n.len + 1, size, key) == tid, level + n.len + 1, size, key, false)
    ensures RemoveGood(n, Remove(n, k, tid, level, size, key, root), tid, Descend(n, k, level, size, key) == tid,
        level, size, key, root)
  {
    var at := level + n.len;
    var kid := n.kids[k[at]];
    DescendIs(n, k, level, size, key);
    DescendOk(kid, k, at + 1, size, key);
    RemoveIs(n, k, tid, level, size, key, root);
    RemoveDown(n, k[at], Remove(kid, k, tid, at + 1, size, key, false), tid, Descend(kid, k, at + 1, size, key) == tid,
        level, size, key);
  }

  lemma RemoveIs(n: Node, k: Key, tid: Tid, level: nat, size: nat, key: Loader, root: bool)
    requires n.Inner? && Shape(n, level, size, key) && (root || Sized(n)) && |k| == size
    requires CheckPrefix(n, k, level).Match? && n.kids[k[level + n.len]].Inner?
    ensures var kid := n.kids[k[level + n.len]];
            && Sized(kid) && Shape(kid, level + n.len + 1, size, key)
            && Remove(n, k, tid, level, size, key, root) ==
               n.(kids := n.kids[k[level + n.len] := Remove(kid, k, tid, level + n.len + 1, size, key, false)])
  {
    KidIs(n, k[level + n.len], level, size, key);
  }

  lemma RemoveLeaf(n: Node, k: Key, tid: Tid, level: nat, size: nat, key: Loader, root: bool)
    requires n.Inner? && Shape(n, level, size, key) && (root || Sized(n)) && |k| == size && 0 < tid
    requires CheckPrefix(n, k, level).Match? && n.kids[k[level + n.len]].Leaf?
    ensures RemoveGood(n, Remove(n, k, tid, level, size, key, root), tid, Descend(n, k, level, size, key) == tid,
        level, size, key, root)
  {
    var b := k[level + n.len];
    KidIs(n, b, level, size, key);
    assert Descend(n, k, level, size, key) == n.kids[b].tid;
    if n.kids[b].tid == tid {
      if !root && StoredCount(n) == 2 {
        DissolveOk(n, b, tid, level, size, key);
      } else {
        DropOk(n, b, tid, level, size, key, root);
      }
    }
  }

  lemma RemoveDown(n: Node, b: Byte, kid: Node, tid: Tid, hit: bool, level: nat, size: nat, key: Loader)
    requires n.Inner? && Shape(n, level, size, key) && !n.kids[b].Null?
    requires !kid.Null? && WellFormed(kid, level + n.len + 1, size, key)
    requires forall t :: Has(kid, t) <==> Has(n.kids[b], t) && !(t == tid && hit)
    requires hit ==> Has(n.kids[b], tid)
    ensures var r := n.(kids := n.kids[b := kid]);
            && Shape(r, level, size, key) && Count(r.kids) == Count(n.kids)
            && (forall t :: Has(r, t) <==> Has(n, t) && !(t == tid && hit))
  {
    var r := n.(kids := n.kids[b := kid]);
    CountUpdate(n.kids, b, kid);
    ShrinkKid(n, r, b, kid, level, size, key);
    RemovedKid(n, r, b, kid, level, key, tid, hit);
  }
}
