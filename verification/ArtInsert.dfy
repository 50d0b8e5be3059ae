/** Insert keeps the tree well formed and adds exactly the new key. */
module ArtInsert {
  import opened ArtNode
  import opened ArtTree

  /** Everything below agrees with `k` before byte `at`. */
  ghost predicate Agrees(n: Node, k: Key, at: nat, key: Loader) {
    && at <= |k| && (forall t :: Has(n, t) ==> at < |key(t)|)
    && (forall t {:trigger SharePath(key(t), k, at)} :: Has(n, t) ==> SharePath(key(t), k, at))
  }

  /** Everything below has byte `b` at position `at`. */
  ghost predicate Under(n: Node, at: nat, b: Byte, key: Loader) {
    forall t :: Has(n, t) ==> at < |key(t)| && key(t)[at] == b
  }

  lemma AgreesPrefix(n: Node, level: nat, k: Key, key: Loader)
    requires n.Inner? && |n.prefix| == STORED && level + n.len < |k| && Agrees(n, k, level + n.len, key)
    requires n.prefix[..Min(STORED, n.len)] == k[level..level + Min(STORED, n.len)]
    ensures PrefixOk(n, level, key)
  {
    var m, at := Min(STORED, n.len), level + n.len;
    forall t | Has(n, t) ensures Stored(n, level, key(t)) {
      assert SharePath(key(t), k, at);
      ShareLess(key(t), k, at, level, level + m);
    }
    forall t, u | Both(n, t, u) ensures SharePath(key(t), key(u), at) {
      assert SharePath(key(t), k, at) && SharePath(key(u), k, at);
    }
  }

  // ----- a new node with two children ---------------------------------------------------------

  lemma TwoCount(x: Byte, a: Node, y: Byte, b: Node)
    requires x != y && !a.Null? && !b.Null?
    ensures Count(Empty()[x := a][y := b]) == 2
  {
    CountNull(Empty());
    CountUpdate(Empty(), x, a);
    CountUpdate(Empty()[x := a], y, b);
  }

  lemma TwoHas(n: Node, x: Byte, a: Node, y: Byte, b: Node, t: Tid)
    requires x != y && n.Inner? && n.kids == Empty()[x := a][y := b]
    ensures Has(n, t) <==> Has(a, t) || Has(b, t)
  {
    assert n.kids[x] == a && n.kids[y] == b;
    if Has(n, t) {
      var z :| 0 <= z < |n.kids| && Has(n.kids[z], t);
      assert z == x || z == y;
    }
  }

  lemma MakeTwo(n: Node, x: Byte, a: Node, y: Byte, b: Node, level: nat, size: nat, key: Loader, k: Key)
    requires n.Inner? && n.kind == N4 && |n.prefix| == STORED && n.kids == Empty()[x := a][y := b]
    requires x != y && !a.Null? && !b.Null? && level + n.len < size == |k|
    requires n.prefix[..Min(STORED, n.len)] == k[level..level + Min(STORED, n.len)]
    requires WellFormed(a, level + n.len + 1, size, key) && WellFormed(b, level + n.len + 1, size, key)
    requires Agrees(a, k, level + n.len, key) && Agrees(b, k, level + n.len, key)
    requires Under(a, level + n.len, x, key) && Under(b, level + n.len, y, key)
    ensures WellFormed(n, level, size, key)
  {
    var at := level + n.len;
    TwoCount(x, a, y, b);
    forall t | Has(n, t) ensures at < |key(t)| && SharePath(key(t), k, at) {
      TwoHas(n, x, a, y, b, t);
    }
    AgreesPrefix(n, level, k, key);
    forall z | 0 <= z < 256 ensures KidOk(n, z, level, size, key) {
      assert n.kids[z] == if z == y then b else if z == x then a else Null;
    }
  }

  // ----- replacing one child ------------------------------------------------------------------

  lemma ReplaceKid(n: Node, r: Node, kid: Node, level: nat, size: nat, key: Loader, k: Key)
    requires n.Inner? && Shape(n, level, size, key) && |k| == size
    requires Agrees(n, k, level + n.len, key) && (n.len > 0 ==> Count(n.kids) > 0)
    requires r.Inner? && |r.prefix| == STORED && r.len == n.len && r.kids == n.kids[k[level + n.len] := kid]
    requires r.prefix[..Min(STORED, n.len)] == n.prefix[..Min(STORED, n.len)]
    requires WellFormed(kid, level + n.len + 1, size, key)
    requires Agrees(kid, k, level + n.len, key) && Under(kid, level + n.len, k[level + n.len], key)
    ensures Shape(r, level, size, key)
  {
    var at := level + n.len;
    PrefixIs(n, level, size, key, k);
    forall t | Has(r, t) ensures at < |key(t)| && SharePath(key(t), k, at) {
      var b :| 0 <= b < |r.kids| && Has(r.kids[b], t);
      if b != k[at] { HasKid(n, b, t); }
    }
    AgreesPrefix(r, level, k, key);
    forall b, t | 0 <= b < 256 && Has(r.kids[b], t) ensures at < |key(t)| && key(t)[at] == b {
      if b != k[at] { assert Has(n.kids[b], t); }
    }
    forall b | 0 <= b < 256 ensures KidOk(r, b, level, size, key) {
      if b != k[at] { KidIs(n, b, level, size, key); }
    }
  }

  /** The stored bytes are those of any key that agrees with the keys below. */
  lemma PrefixIs(n: Node, level: nat, size: nat, key: Loader, k: Key)
    requires n.Inner? && Shape(n, level, size, key) && |k| == size && Agrees(n, k, level + n.len, key)
    requires n.len > 0 ==> Count(n.kids) > 0
    ensures n.prefix[..Min(STORED, n.len)] == k[level..level + Min(STORED, n.len)]
  {
    if n.len > 0 {
      var b := SomeKid(n.kids);
      KidIs(n, b, level, size, key);
      var t := HasSome(n.kids[b], level + n.len + 1, size, key);
      HasKid(n, b, t);
      assert Stored(n, level, key(t));
      assert SharePath(key(t), k, level + n.len);
      ShareLess(key(t), k, level + n.len, level, level + Min(STORED, n.len));
    }
  }

  /** The keys below after an insert. */
  ghost predicate Inserted(n: Node, r: Node, k: Key, tid: Tid, key: Loader) {
    forall t :: Has(r, t) <==> t == tid || (Has(n, t) && key(t) != k)
  }

  lemma InsertedKid(n: Node, r: Node, kid: Node, k: Key, tid: Tid, level: nat, key: Loader)
    requires n.Inner? && KidsOk(n, level, key) && level + n.len < |k|
    requires r.Inner? && r.kids == n.kids[k[level + n.len] := kid]
    requires Inserted(n.kids[k[level + n.len]], kid, k, tid, key)
    ensures Inserted(n, r, k, tid, key)
  {
    var b := k[level + n.len];
    forall t ensures Has(r, t) <==> t == tid || (Has(n, t) && key(t) != k) {
      HasUpdate(n, b, kid, t);
      assert Has(r, t) <==> Has(n.(kids := n.kids[b := kid]), t);
      if x: int :| 0 <= x < |n.kids| && x != b && Has(n.kids[x], t) {
        HasKid(n, x, t);
      }
      if Has(n.kids[b], t) { HasKid(n, b, t); }
    }
  }

  // ----- the cases ----------------------------------------------------------------------------

  lemma SplitLeafOk(old_: Tid, tid: Tid, k: Key, level: nat, size: nat, key: Loader)
    requires |k| == size && |key(old_)| == size && key(tid) == k && key(old_) != k && 0 < old_ && 0 < tid
    requires SharePath(key(old_), k, level)
    ensures WellFormed(SplitLeaf(old_, tid, k, level, key), level, size, key)
    ensures Inserted(Leaf(old_), SplitLeaf(old_, tid, k, level, key), k, tid, key)
  {
    var m := CommonLen(key(old_), k, level);
    var n := SplitLeaf(old_, tid, k, level, key);
    var x, y := k[level + m], key(old_)[level + m];
    assert n.prefix[..Min(STORED, m)] == k[level..level + Min(STORED, m)] by {
      assert k[level..][..Min(m, STORED)] == k[level..level + Min(m, STORED)];
    }
    MakeTwo(n, x, Leaf(tid), y, Leaf(old_), level, size, key, k);
    forall t ensures Has(n, t) <==> t == tid || t == old_ { TwoHas(n, x, Leaf(tid), y, Leaf(old_), t); }
  }

  lemma AddKidOk(n: Node, k: Key, tid: Tid, level: nat, size: nat, key: Loader)
    requires n.Inner? && Shape(n, level, size, key) && |k| == size && key(tid) == k && 0 < tid
    requires Agrees(n, k, level + n.len, key) && n.kids[k[level + n.len]].Null?
    requires Sized(n) || (n.kind == N256 && n.len == 0)
    ensures var r := AddKid(n, k[level + n.len], Leaf(tid));
            && Shape(r, level, size, key) && Inserted(n, r, k, tid, key)
            && (Sized(n) ==> Sized(r)) && (n.kind == N256 ==> r.kind == N256 && r.len == n.len)
  {
    var b := k[level + n.len];
    var r := AddKid(n, b, Leaf(tid));
    CountUpdate(n.kids, b, Leaf(tid));
    CountBound(r.kids);
    ReplaceKid(n, r, Leaf(tid), level, size, key, k);
    InsertedKid(n, r, Leaf(tid), k, tid, level, key);
  }

  /** The node's prefix differs from the key first at position `j`. */
  ghost predicate FirstDiff(n: Node, k: Key, level: nat, kt: Key, j: nat)
    requires n.Inner? && |n.prefix| == STORED && level + n.len < |k| && (n.len > STORED ==> level + n.len < |kt|)
  {
    j == Stop(n, k, level, kt, 0) && j < n.len
  }

  lemma SplitPrefixOk(n: Node, k: Key, tid: Tid, level: nat, size: nat, key: Loader, kt: Key)
    requires n.Inner? && Sized(n) && Shape(n, level, size, key) && |k| == size && key(tid) == k && 0 < tid
    requires OnPath(n, k, level, key) && Sample(n, kt, key) && (n.len > STORED ==> level + n.len < |kt|)
    requires Compare(n, k, level, kt).Differ?
    ensures var r := SplitPrefix(n, tid, k, level, Compare(n, k, level, kt));
            WellFormed(r, level, size, key) && Inserted(n, r, k, tid, key)
  {
    var j := Stop(n, k, level, kt, 0);
    SplitPrefixAt(n, k, tid, level, size, key, kt, j, Differ(j, ByteAt(n, level, kt, j), Rest(n, level, kt, j)));
  }

  lemma SplitPrefixAt(n: Node, k: Key, tid: Tid, level: nat, size: nat, key: Loader, kt: Key, j: nat, c: Compared)
    requires n.Inner? && Sized(n) && Shape(n, level, size, key) && |k| == size && key(tid) == k && 0 < tid
    requires OnPath(n, k, level, key) && Sample(n, kt, key) && (n.len > STORED ==> level + n.len < |kt|)
    requires FirstDiff(n, k, level, kt, j) && c == Differ(j, ByteAt(n, level, kt, j), Rest(n, level, kt, j))
    ensures var r := SplitPrefix(n, tid, k, level, c);
            WellFormed(r, level, size, key) && Inserted(n, r, k, tid, key)
  {
    LowerIs(n, level, kt, j, c);
    SplitHead(n, k, level, size, key, kt, j);
    SplitBelow(n, Lower(n, c), j, level, size, key, kt);
    SplitJoin(n, Lower(n, c), k, tid, level, size, key, c);
  }

  /** The old node under its shortened prefix. */
  function Lower(n: Node, c: Compared): Node
    requires n.Inner? && |n.prefix| == STORED && c.Differ? && c.i < n.len && |c.rest| == STORED
  {
    n.(prefix := SetPrefix(n.prefix, c.rest, n.len - (c.i + 1)), len := n.len - (c.i + 1))
  }

  lemma LowerIs(n: Node, level: nat, kt: Key, j: nat, c: Compared)
    requires n.Inner? && |n.prefix| == STORED && j < n.len && (n.len > STORED ==> level + n.len < |kt|)
    requires c == Differ(j, ByteAt(n, level, kt, j), Rest(n, level, kt, j))
    ensures |c.rest| == STORED && c.i < n.len
    ensures Lower(n, c) ==
            n.(prefix := SetPrefix(n.prefix, Rest(n, level, kt, j), n.len - (j + 1)), len := n.len - (j + 1))
  {
  }

  lemma SplitHead(n: Node, k: Key, level: nat, size: nat, key: Loader, kt: Key, j: nat)
    requires n.Inner? && Sized(n) && Shape(n, level, size, key) && |k| == size
    requires OnPath(n, k, level, key) && Sample(n, kt, key) && (n.len > STORED ==> level + n.len < |kt|)
    requires FirstDiff(n, k, level, kt, j)
    ensures Parted(n, k, level + j, ByteAt(n, level, kt, j), key)
    ensures n.prefix[..Min(j, STORED)] == k[level..level + Min(j, STORED)] && ByteAt(n, level, kt, j) != k[level + j]
  {
    AllParted(n, k, level, kt, key, j);
    HeadIs(n, k, level, size, key, j, ByteAt(n, level, kt, j));
  }

  lemma SplitBelow(n: Node, below: Node, i: nat, level: nat, size: nat, key: Loader, kt: Key)
    requires n.Inner? && Sized(n) && Shape(n, level, size, key) && i < n.len
    requires Sample(n, kt, key) && (n.len > STORED ==> level + n.len < |kt|)
    requires below == n.(prefix := SetPrefix(n.prefix, Rest(n, level, kt, i), n.len - (i + 1)), len := n.len - (i + 1))
    ensures WellFormed(below, level + i + 1, size, key) && SameTids(n, below)
  {
    AllSame(n, below);
    BelowOk(n, below, i, level, size, key, kt);
  }

  lemma SplitJoin(n: Node, below: Node, k: Key, tid: Tid, level: nat, size: nat, key: Loader, c: Compared)
    requires n.Inner? && |n.prefix| == STORED && c.Differ? && c.i < n.len && |c.rest| == STORED
    requires level + n.len < size == |k| && key(tid) == k && 0 < tid
    requires below == n.(prefix := SetPrefix(n.prefix, c.rest, n.len - (c.i + 1)), len := n.len - (c.i + 1))
    requires n.prefix[..Min(c.i, STORED)] == k[level..level + Min(c.i, STORED)] && c.byte != k[level + c.i]
    requires WellFormed(below, level + c.i + 1, size, key)
    requires SameTids(n, below) && Parted(n, k, level + c.i, c.byte, key)
    ensures WellFormed(SplitPrefix(n, tid, k, level, c), level, size, key)
    ensures Inserted(n, SplitPrefix(n, tid, k, level, c), k, tid, key)
  {
    var r := SplitPrefix(n, tid, k, level, c);
    assert r.prefix[..Min(c.i, STORED)] == n.prefix[..Min(c.i, STORED)];
    SplitTwo(n, r, below, k, tid, level, size, key, c);
  }

  /** All keys below agree with `k` before byte `at`, and there have a byte that is not `k`'s. */
  ghost predicate Parted(n: Node, k: Key, at: nat, byte: Byte, key: Loader) {
    && at < |k|
    && (forall t :: Has(n, t) ==> at < |key(t)| && key(t)[at] == byte != k[at])
    && (forall t {:trigger SharePath(key(t), k, at)} :: Has(n, t) ==> SharePath(key(t), k, at))
  }

  lemma AllParted(n: Node, k: Key, level: nat, kt: Key, key: Loader, j: nat)
    requires n.Inner? && PrefixOk(n, level, key) && OnPath(n, k, level, key)
    requires level + n.len < |k| && Sample(n, kt, key) && (n.len > STORED ==> level + n.len < |kt|)
    requires FirstDiff(n, k, level, kt, j)
    ensures Parted(n, k, level + j, ByteAt(n, level, kt, j), key)
  {
    forall t | Has(n, t)
      ensures level + j < |key(t)| && key(t)[level + j] == ByteAt(n, level, kt, j) != k[level + j]
      ensures SharePath(key(t), k, level + j)
    {
      DiffersAt(n, k, level, kt, key, t, j);
    }
  }

  ghost predicate SameTids(n: Node, r: Node) {
    forall t :: Has(n, t) <==> Has(r, t)
  }

  lemma AllSame(n: Node, r: Node)
    requires n.Inner? && r.Inner? && n.kids == r.kids
    ensures SameTids(n, r)
  {
    forall t ensures Has(n, t) <==> Has(r, t) { SameHas(n, r, t); }
  }

  lemma SplitTwo(n: Node, r: Node, below: Node, k: Key, tid: Tid, level: nat, size: nat, key: Loader, c: Compared)
    requires n.Inner? && c.Differ? && c.i < n.len && level + n.len < size == |k| && key(tid) == k && 0 < tid
    requires r.Inner? && r.kind == N4 && r.len == c.i && |r.prefix| == STORED
    requires r.prefix[..Min(STORED, c.i)] == k[level..level + Min(STORED, c.i)]
    requires r.kids == Empty()[k[level + c.i] := Leaf(tid)][c.byte := below] && c.byte != k[level + c.i]
    requires below.Inner? && WellFormed(below, level + c.i + 1, size, key)
    requires SameTids(n, below) && Parted(n, k, level + c.i, c.byte, key)
    ensures WellFormed(r, level, size, key) && Inserted(n, r, k, tid, key)
  {
    var at := level + c.i;
    MakeTwo(r, k[at], Leaf(tid), c.byte, below, level, size, key, k);
    forall t ensures Has(r, t) <==> t == tid || (Has(n, t) && key(t) != k) {
      TwoHas(r, k[at], Leaf(tid), c.byte, below, t);
    }
  }

  /** The stored bytes before the difference are those of `k`, and the differing byte is not. */
  lemma HeadIs(n: Node, k: Key, level: nat, size: nat, key: Loader, i: nat, byte: Byte)
    requires n.Inner? && Sized(n) && Shape(n, level, size, key) && i < n.len && |k| == size
    requires Parted(n, k, level + i, byte, key)
    ensures n.prefix[..Min(i, STORED)] == k[level..level + Min(i, STORED)] && byte != k[level + i]
  {
    var t := AnyTid(n, level, size, key);
    var m := Min(i, STORED);
    assert Stored(n, level, key(t));
    assert SharePath(key(t), k, level + i);
    ShareLess(key(t), k, level + i, level, level + m);
    assert n.prefix[..Min(STORED, n.len)][..m] == n.prefix[..m];
    assert key(t)[level..level + Min(STORED, n.len)][..m] == key(t)[level..level + m];
  }

  lemma SameHas(n: Node, r: Node, t: Tid)
    requires n.Inner? && r.Inner? && n.kids == r.kids
    ensures Has(n, t) <==> Has(r, t)
  {
  }

  lemma DiffersAt(n: Node, k: Key, level: nat, kt: Key, key: Loader, t: Tid, j: nat)
    requires n.Inner? && PrefixOk(n, level, key) && Has(n, t) && OnPath(n, k, level, key)
    requires level + n.len < |k| && Sample(n, kt, key) && (n.len > STORED ==> level + n.len < |kt|)
    requires FirstDiff(n, k, level, kt, j)
    ensures level + j < |key(t)| && SharePath(key(t), k, level + j)
    ensures key(t)[level + j] == ByteAt(n, level, kt, j) != k[level + j]
  {
    StopAgrees(n, k, level, kt, key, t);
    ByteIs(n, level, kt, j, key, t);
    assert SharePath(key(t), k, level);
    ShareJoin(key(t), k, level, level + j);
  }

  /** The old node keeps the part of its prefix after the byte that differs. */
  lemma BelowOk(n: Node, below: Node, i: nat, level: nat, size: nat, key: Loader, kt: Key)
    requires n.Inner? && Sized(n) && Shape(n, level, size, key) && i < n.len
    requires Sample(n, kt, key) && (n.len > STORED ==> level + n.len < |kt|)
    requires below == n.(prefix := SetPrefix(n.prefix, Rest(n, level, kt, i), n.len - (i + 1)), len := n.len - (i + 1))
    ensures WellFormed(below, level + i + 1, size, key)
  {
    AllSame(n, below);
    BelowPrefix(n, below, i, level, key, kt);
    BelowKids(n, below, level, level + i + 1, size, key);
    ShapeMade(below, level + i + 1, size, key);
  }

  lemma ShapeMade(n: Node, level: nat, size: nat, key: Loader)
    requires n.Inner? && level + n.len < size && PrefixOk(n, level, key) && KidsOk(n, level, key)
    requires forall b :: 0 <= b < 256 ==> KidOk(n, b, level, size, key)
    ensures Shape(n, level, size, key) && (Sized(n) ==> WellFormed(n, level, size, key))
  {
  }

  lemma BelowPrefix(n: Node, below: Node, i: nat, level: nat, key: Loader, kt: Key)
    requires n.Inner? && PrefixOk(n, level, key) && i < n.len
    requires Sample(n, kt, key) && (n.len > STORED ==> level + n.len < |kt|)
    requires below == n.(prefix := SetPrefix(n.prefix, Rest(n, level, kt, i), n.len - (i + 1)), len := n.len - (i + 1))
    requires forall t :: Has(n, t) <==> Has(below, t)
    ensures PrefixOk(below, level + i + 1, key)
  {
    BelowAll(n, below, i, level, key, kt);
    PrefixFrom(n, below, level, level + i + 1, key);
  }

  lemma BelowAll(n: Node, below: Node, i: nat, level: nat, key: Loader, kt: Key)
    requires n.Inner? && PrefixOk(n, level, key) && i < n.len
    requires Sample(n, kt, key) && (n.len > STORED ==> level + n.len < |kt|)
    requires below == n.(prefix := SetPrefix(n.prefix, Rest(n, level, kt, i), n.len - (i + 1)), len := n.len - (i + 1))
    ensures |below.prefix| == STORED && forall t :: Has(n, t) ==> StoredAt(below, level + i + 1, key, t)
  {
    forall t | Has(n, t) ensures StoredAt(below, level + i + 1, key, t) {
      BelowStored(n, below, i, level, key, kt, t);
    }
  }

  ghost predicate StoredAt(n: Node, level: nat, key: Loader, t: Tid)
    requires n.Inner? && |n.prefix| == STORED
  {
    level + n.len < |key(t)| && Stored(n, level, key(t))
  }

  /** Cutting a prefix at the front leaves a prefix. */
  lemma PrefixFrom(n: Node, r: Node, level: nat, level': nat, key: Loader)
    requires n.Inner? && r.Inner? && PrefixOk(n, level, key) && |r.prefix| == STORED && level' + r.len == level + n.len
    requires forall t :: Has(n, t) <==> Has(r, t)
    requires forall t :: Has(n, t) ==> StoredAt(r, level', key, t)
    ensures PrefixOk(r, level', key)
  {
    forall t, u | Both(r, t, u) ensures SharePath(key(t), key(u), level' + r.len) {
      assert Both(n, t, u);
    }
    forall t | Has(r, t) ensures level' + r.len < |key(t)| && Stored(r, level', key(t)) {
      assert StoredAt(r, level', key, t);
    }
  }

  lemma BelowKids(n: Node, below: Node, level: nat, level': nat, size: nat, key: Loader)
    requires n.Inner? && Shape(n, level, size, key)
    requires below.Inner? && below.kids == n.kids && level' + below.len == level + n.len
    ensures KidsOk(below, level', key)
    ensures forall b :: 0 <= b < 256 ==> KidOk(below, b, level', size, key)
  {
    forall b | 0 <= b < 256 ensures KidOk(below, b, level', size, key) {
      KidIs(n, b, level, size, key);
    }
  }

  lemma BelowStored(n: Node, below: Node, i: nat, level: nat, key: Loader, kt: Key, t: Tid)
    requires n.Inner? && PrefixOk(n, level, key) && Has(n, t) && i < n.len
    requires Sample(n, kt, key) && (n.len > STORED ==> level + n.len < |kt|)
    requires below == n.(prefix := SetPrefix(n.prefix, Rest(n, level, kt, i), n.len - (i + 1)), len := n.len - (i + 1))
    ensures StoredAt(below, level + i + 1, key, t)
  {
    RestIs(n, level, kt, i, key, t);
  }

  // ----- all together -------------------------------------------------------------------------

  /** A path that agrees up to the node's position agrees in the sense of `Agrees`. */
  lemma AgreesHere(n: Node, k: Key, level: nat, size: nat, key: Loader)
    requires n.Inner? && Shape(n, level, size, key) && |k| == size && OnPath(n, k, level, key)
    requires n.len > 0 ==> Sized(n)
    requires Compare(n, k, level, SampleKey(n, k, level, size, key)).Same?
    ensures Agrees(n, k, level + n.len, key)
  {
    var at := level + n.len;
    forall t | Has(n, t) ensures at < |key(t)| && SharePath(key(t), k, at) {
      StopAgrees(n, k, level, SampleKey(n, k, level, size, key), key, t);
      assert SharePath(key(t), k, level);
      ShareJoin(key(t), k, level, at);
    }
  }

  ghost predicate Good(n: Node, level: nat, size: nat, key: Loader) {
    n.Inner? && Shape(n, level, size, key) && (Sized(n) || (n.kind == N256 && n.len == 0))
  }

  /** What an insert into a subtree leaves: a well-formed node that holds the new tuple in place of any
      other with its key; a 256-slot root stays one. */
  ghost predicate InsertGood(n: Node, r: Node, k: Key, tid: Tid, level: nat, size: nat, key: Loader)
    requires n.Inner?
  {
    && r.Inner? && Shape(r, level, size, key) && Inserted(n, r, k, tid, key)
    && (Sized(n) ==> Sized(r)) && (n.kind == N256 && n.len == 0 ==> r.kind == N256 && r.len == 0)
  }

  lemma InsertDiffer(n: Node, k: Key, tid: Tid, level: nat, size: nat, key: Loader)
    requires Good(n, level, size, key) && |k| == size && key(tid) == k && 0 < tid && OnPath(n, k, level, key)
    requires Compare(n, k, level, SampleKey(n, k, level, size, key)).Differ?
    ensures InsertGood(n, Insert(n, k, tid, level, size, key), k, tid, level, size, key)
  {
    SplitPrefixOk(n, k, tid, level, size, key, SampleKey(n, k, level, size, key));
  }

  lemma InsertFree(n: Node, k: Key, tid: Tid, level: nat, size: nat, key: Loader)
    requires Good(n, level, size, key) && |k| == size && key(tid) == k && 0 < tid && OnPath(n, k, level, key)
    requires Compare(n, k, level, SampleKey(n, k, level, size, key)).Same?
    requires n.kids[k[level + n.len]].Null?
    ensures InsertGood(n, Insert(n, k, tid, level, size, key), k, tid, level, size, key)
  {
    AgreesHere(n, k, level, size, key);
    AddKidOk(n, k, tid, level, size, key);
    InsertIsFree(n, k, tid, level, size, key);
  }

  lemma InsertIsFree(n: Node, k: Key, tid: Tid, level: nat, size: nat, key: Loader)
    requires Good(n, level, size, key) && |k| == size && OnPath(n, k, level, key)
    requires Compare(n, k, level, SampleKey(n, k, level, size, key)).Same?
    requires n.kids[k[level + n.len]].Null?
    ensures Insert(n, k, tid, level, size, key) == AddKid(n, k[level + n.len], Leaf(tid))
  {
  }

  lemma InsertDown(n: Node, k: Key, tid: Tid, level: nat, size: nat, key: Loader, kid: Node)
    requires Good(n, level, size, key) && |k| == size && key(tid) == k && 0 < tid && OnPath(n, k, level, key)
    requires Compare(n, k, level, SampleKey(n, k, level, size, key)).Same?
    requires !n.kids[k[level + n.len]].Null? && OnPath(n.kids[k[level + n.len]], k, level + n.len + 1, key)
    requires !kid.Null? && WellFormed(kid, level + n.len + 1, size, key)
    requires Inserted(n.kids[k[level + n.len]], kid, k, tid, key)
    ensures InsertGood(n, n.(kids := n.kids[k[level + n.len] := kid]), k, tid, level, size, key)
  {
    AgreesHere(n, k, level, size, key);
    Down(n, k, tid, level, size, key, kid);
  }

  lemma InsertIs(n: Node, k: Key, tid: Tid, level: nat, size: nat, key: Loader)
    requires Good(n, level, size, key) && |k| == size && OnPath(n, k, level, key)
    requires Compare(n, k, level, SampleKey(n, k, level, size, key)).Same?
    requires !n.kids[k[level + n.len]].Null?
    requires WellFormed(n.kids[k[level + n.len]], level + n.len + 1, size, key)
    requires OnPath(n.kids[k[level + n.len]], k, level + n.len + 1, key)
    ensures var b := k[level + n.len];
            Insert(n, k, tid, level, size, key) ==
            n.(kids := n.kids[b := InsertBelow(n.kids[b], k, tid, level + n.len + 1, size, key)])
  {
  }

  lemma KidReady(n: Node, k: Key, level: nat, size: nat, key: Loader)
    requires Good(n, level, size, key) && |k| == size && OnPath(n, k, level, key)
    requires Compare(n, k, level, SampleKey(n, k, level, size, key)).Same?
    ensures WellFormed(n.kids[k[level + n.len]], level + n.len + 1, size, key)
    ensures OnPath(n.kids[k[level + n.len]], k, level + n.len + 1, key)
  {
    OnPathBelow(n, k, level, size, key);
    KidIs(n, k[level + n.len], level, size, key);
  }

  lemma InsertThrough(n: Node, k: Key, tid: Tid, level: nat, size: nat, key: Loader)
    requires Good(n, level, size, key) && |k| == size && key(tid) == k && 0 < tid && OnPath(n, k, level, key)
    requires Compare(n, k, level, SampleKey(n, k, level, size, key)).Same?
    requires !n.kids[k[level + n.len]].Null? && WellFormed(n.kids[k[level + n.len]], level + n.len + 1, size, key)
    requires OnPath(n.kids[k[level + n.len]], k, level + n.len + 1, key)
    requires var r := InsertBelow(n.kids[k[level + n.len]], k, tid, level + n.len + 1, size, key);
             && !r.Null? && WellFormed(r, level + n.len + 1, size, key)
             && Inserted(n.kids[k[level + n.len]], r, k, tid, key)
    ensures InsertGood(n, Insert(n, k, tid, level, size, key), k, tid, level, size, key)
  {
    InsertIs(n, k, tid, level, size, key);
    var kid := InsertBelow(n.kids[k[level + n.len]], k, tid, level + n.len + 1, size, key);
    InsertDown(n, k, tid, level, size, key, kid);
  }

  lemma {:induction false} InsertOk(n: Node, k: Key, tid: Tid, level: nat, size: nat, key: Loader)
    requires Good(n, level, size, key) && |k| == size && key(tid) == k && 0 < tid && OnPath(n, k, level, key)
    ensures InsertGood(n, Insert(n, k, tid, level, size, key), k, tid, level, size, key)
    decreases n, 0
  {
    if Compare(n, k, level, SampleKey(n, k, level, size, key)).Differ? {
      InsertDiffer(n, k, tid, level, size, key);
    } else if n.kids[k[level + n.len]].Null? {
      InsertFree(n, k, tid, level, size, key);
    } else {
      KidReady(n, k, level, size, key);
      InsertBelowOk(n.kids[k[level + n.len]], k, tid, level + n.len + 1, size, key);
      InsertThrough(n, k, tid, level, size, key);
    }
  }

  lemma {:induction false} InsertBelowOk(n: Node, k: Key, tid: Tid, level: nat, size: nat, key: Loader)
    requires !n.Null? && WellFormed(n, level, size, key) && OnPath(n, k, level, key)
    requires |k| == size && key(tid) == k && 0 < tid
    ensures var r := InsertBelow(n, k, tid, level, size, key);
            !r.Null? && WellFormed(r, level, size, key) && Inserted(n, r, k, tid, key)
    decreases n, 1
  {
    if n.Inner? {
      InsertOk(n, k, tid, level, size, key);
    } else if key(n.tid) != k {
      assert Has(n, n.tid) && SharePath(key(n.tid), k, level);
      SplitLeafOk(n.tid, tid, k, level, size, key);
    }
  }

  /** The keys of a child after an insert go through the byte of the new key. */
  lemma KidAgrees(was: Node, kid: Node, k: Key, tid: Tid, at: nat, key: Loader)
    requires OnPath(was, k, at + 1, key) && Inserted(was, kid, k, tid, key) && key(tid) == k && at < |k|
    ensures Agrees(kid, k, at, key) && Under(kid, at, k[at], key)
  {
    forall t | Has(kid, t) ensures at < |key(t)| && SharePath(key(t), k, at) && key(t)[at] == k[at] {
      if t != tid {
        assert Has(was, t) && SharePath(key(t), k, at + 1);
        ShareLess(key(t), k, at + 1, at, at);
        ShareNext(key(t), k, at);
      }
    }
  }

  lemma Down(n: Node, k: Key, tid: Tid, level: nat, size: nat, key: Loader, kid: Node)
    requires Good(n, level, size, key) && |k| == size && key(tid) == k && Agrees(n, k, level + n.len, key)
    requires OnPath(n.kids[k[level + n.len]], k, level + n.len + 1, key)
    requires !kid.Null? && !n.kids[k[level + n.len]].Null? && WellFormed(kid, level + n.len + 1, size, key)
    requires Inserted(n.kids[k[level + n.len]], kid, k, tid, key)
    ensures var r := n.(kids := n.kids[k[level + n.len] := kid]);
            Shape(r, level, size, key) && Inserted(n, r, k, tid, key) && (Sized(n) ==> Sized(r))
  {
    var at := level + n.len;
    CountUpdate(n.kids, k[at], kid);
    var was, r := n.kids[k[at]], n.(kids := n.kids[k[at] := kid]);
    KidAgrees(was, kid, k, tid, at, key);
    ReplaceKid(n, r, kid, level, size, key, k);
    InsertedKid(n, r, kid, k, tid, level, key);
  }
}
