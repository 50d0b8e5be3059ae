/** Lookup, insert and remove of the adaptive radix tree, with at most eleven stored bytes of each
    compressed path. */
module ArtTree {
  import opened ArtNode

  const ZEROS: seq<Byte> := [0, 0, 0, 0, 0, 0, 0, 0, 0, 0, 0]

  // ----- prefixes -----------------------------------------------------------------------------

  function Copy(dst: seq<Byte>, src: seq<Byte>, n: nat): (r: seq<Byte>)
    requires n <= |dst| && n <= |src|
    ensures |r| == |dst| && r[..n] == src[..n]
  {
    src[..n] + dst[n..]
  }

  /** `setPrefix`: bytes beyond the new length keep what they were. */
  function SetPrefix(dst: seq<Byte>, src: seq<Byte>, len: nat): (r: seq<Byte>)
    requires |dst| == STORED && Min(len, STORED) <= |src|
    ensures |r| == STORED && r[..Min(len, STORED)] == src[..Min(len, STORED)]
  {
    Copy(dst, src, Min(len, STORED))
  }

  /** `addPrefixBefore`: the child takes over the prefix of the node dissolved above it, then the byte
      that led to it, then its own prefix, as far as eleven bytes reach. */
  function AddPrefixBefore(n: Node, above: Node, b: Byte): (r: Node)
    requires n.Inner? && above.Inner? && |n.prefix| == STORED && |above.prefix| == STORED
    ensures r.Inner? && |r.prefix| == STORED && r.kids == n.kids && r.kind == n.kind
  {
    var c := Min(STORED, above.len + 1);
    var moved := Min(n.len, STORED - c);
    var p1 := n.prefix[..c] + n.prefix[..moved] + n.prefix[c + moved..];
    var p2 := Copy(p1, above.prefix, Min(c, above.len));
    var p3 := if above.len < STORED then p2[c - 1 := b] else p2;
    n.(prefix := p3, len := n.len + above.len + 1)
  }

  // ----- descent ------------------------------------------------------------------------------

  datatype Check = NoMatch | Match(at: nat, optimistic: bool)

  /** `checkPrefix`: compares the stored bytes and skips the others. */
  function CheckPrefix(n: Node, k: Key, level: nat): Check
    requires n.Inner? && |n.prefix| == STORED
  {
    if |k| <= level + n.len then NoMatch
    else if n.prefix[..Min(STORED, n.len)] != k[level..level + Min(STORED, n.len)] then NoMatch
    else Match(level + n.len, n.len > STORED)
  }

  /** The leaf an unchecked descent for `k` ends in; 0 if there is none. */
  function Descend(n: Node, k: Key, level: nat, size: nat, key: Loader): Tid
    requires n.Inner? ==> Shape(n, level, size, key)
    requires |k| == size
    decreases n
  {
    match n
    case Null => 0
    case Leaf(t) => t
    case Inner(_, _, _, kids) =>
      match CheckPrefix(n, k, level)
      case NoMatch => 0
      case Match(at, _) =>
        KidIs(n, k[at], level, size, key);
        Descend(kids[k[at]], k, at + 1, size, key)
  }

  // ----- some key below a node ----------------------------------------------------------------

  function FirstLeaf(kids: seq<Node>, from: nat): (b: nat)
    requires from <= |kids|
    ensures from <= b <= |kids| && (b < |kids| ==> kids[b].Leaf?)
    decreases |kids| - from
  {
    if from == |kids| || kids[from].Leaf? then from else FirstLeaf(kids, from + 1)
  }

  function FirstKid(kids: seq<Node>, from: nat): (b: nat)
    requires from <= |kids|
    ensures from <= b <= |kids| && (b < |kids| ==> !kids[b].Null?)
    ensures forall x :: from <= x < b ==> kids[x].Null?
    decreases |kids| - from
  {
    if from == |kids| || !kids[from].Null? then from else FirstKid(kids, from + 1)
  }

  function LastKid(kids: seq<Node>, to: nat): (b: nat)
    requires to <= |kids|
    ensures b <= to && (b > 0 ==> !kids[b - 1].Null?)
    ensures forall x :: b <= x < to ==> kids[x].Null?
  {
    if to == 0 || !kids[to - 1].Null? then to else LastKid(kids, to - 1)
  }

  /** `getAnyChild`: the first leaf if there is one, else the last child (a 16-slot node: the first). */
  function AnyKid(n: Node): (b: nat)
    requires n.Inner? && Count(n.kids) > 0
    ensures b < |n.kids| && !n.kids[b].Null?
  {
    var leaf := FirstLeaf(n.kids, 0);
    AnyKidExists(n.kids);
    if leaf < |n.kids| then leaf
    else if n.kind == N16 then FirstKid(n.kids, 0) else LastKid(n.kids, |n.kids|) - 1
  }

  lemma AnyKidExists(kids: seq<Node>)
    requires Count(kids) > 0
    ensures FirstKid(kids, 0) < |kids| && LastKid(kids, |kids|) > 0
  {
    var b := SomeKid(kids);
  }

  function AnyTid(n: Node, level: nat, size: nat, key: Loader): (t: Tid)
    requires !n.Null? && WellFormed(n, level, size, key)
    ensures Has(n, t)
    decreases n
  {
    if n.Leaf? then n.tid else
    var b := AnyKid(n);
    KidIs(n, b, level, size, key);
    AnyTid(n.kids[b], level + n.len + 1, size, key)
  }

  // ----- insert -------------------------------------------------------------------------------

  datatype Compared = Same | Differ(i: nat, byte: Byte, rest: seq<Byte>)

  /** The full prefix of a node: what it does not store is read from a key below it. */
  function ByteAt(n: Node, level: nat, kt: Key, i: nat): Byte
    requires n.Inner? && |n.prefix| == STORED && i < n.len && (n.len > STORED ==> level + n.len < |kt|)
  {
    if i >= STORED then kt[level + i] else n.prefix[i]
  }

  /** The first eleven bytes of the prefix after position `i`. */
  function Rest(n: Node, level: nat, kt: Key, i: nat): (r: seq<Byte>)
    requires n.Inner? && |n.prefix| == STORED && i < n.len && (n.len > STORED ==> level + n.len < |kt|)
    ensures |r| == STORED
  {
    if n.len > STORED then Copy(ZEROS, kt[level + i + 1..], Min(n.len - i - 1, STORED))
    else Copy(ZEROS, n.prefix[i + 1..], n.len - i - 1)
  }

  /** The first position from `i` on where the prefix differs from the key, or its length. */
  function Stop(n: Node, k: Key, level: nat, kt: Key, i: nat): (j: nat)
    requires n.Inner? && |n.prefix| == STORED && i <= n.len
    requires level + n.len < |k| && (n.len > STORED ==> level + n.len < |kt|)
    ensures i <= j <= n.len
    ensures forall x {:trigger ByteAt(n, level, kt, x)} :: i <= x < j ==> ByteAt(n, level, kt, x) == k[level + x]
    ensures j < n.len ==> ByteAt(n, level, kt, j) != k[level + j]
    decreases n.len - i
  {
    if i == n.len || ByteAt(n, level, kt, i) != k[level + i] then i else Stop(n, k, level, kt, i + 1)
  }

  /** `checkPrefixPessimistic`. */
  function Compare(n: Node, k: Key, level: nat, kt: Key): (c: Compared)
    requires n.Inner? && |n.prefix| == STORED
    requires level + n.len < |k| && (n.len > STORED ==> level + n.len < |kt|)
    ensures c.Differ? ==> c.i < n.len && |c.rest| == STORED
  {
    var j := Stop(n, k, level, kt, 0);
    if j == n.len then Same else Differ(j, ByteAt(n, level, kt, j), Rest(n, level, kt, j))
  }

  lemma DifferLater(a: Key, b: Key, from: nat)
    requires |a| == |b| && a != b && SharePath(a, b, from)
    ensures from < |a|
    ensures a[from] == b[from] ==> SharePath(a, b, from + 1)
  {
    if from == |a| {
      ShareAll(a, b);
    } else {
      ShareNext(a, b, from);
    }
  }

  function CommonLen(a: Key, b: Key, from: nat): (m: nat)
    requires |a| == |b| && a != b && SharePath(a, b, from)
    ensures from + m < |a| && a[from + m] != b[from + m] && SharePath(a, b, from + m)
    decreases |a| - from
  {
    DifferLater(a, b, from);
    if a[from] != b[from] then 0 else 1 + CommonLen(a, b, from + 1)
  }

  /** Two leaves that differ from byte `level` on, under a new node. */
  function SplitLeaf(old_: Tid, tid: Tid, k: Key, level: nat, key: Loader): Node
    requires |key(old_)| == |k| && key(old_) != k && SharePath(key(old_), k, level)
  {
    var m := CommonLen(key(old_), k, level);
    Inner(N4, SetPrefix(ZEROS, k[level..], m), m,
          Empty()[k[level + m] := Leaf(tid)][key(old_)[level + m] := Leaf(old_)])
  }

  /** A new parent for a node whose prefix differs from the key at position `i`. */
  function SplitPrefix(n: Node, tid: Tid, k: Key, level: nat, c: Compared): Node
    requires n.Inner? && |n.prefix| == STORED && c.Differ? && c.i < n.len && |c.rest| == STORED && level + c.i < |k|
  {
    var below := n.(prefix := SetPrefix(n.prefix, c.rest, n.len - (c.i + 1)), len := n.len - (c.i + 1));
    Inner(N4, SetPrefix(ZEROS, n.prefix, c.i), c.i, Empty()[k[level + c.i] := Leaf(tid)][c.byte := below])
  }

  /** `insertGrow`: in place, or into a copy of the next larger kind. */
  function AddKid(n: Node, b: Byte, kid: Node): Node
    requires n.Inner? && |n.prefix| == STORED && |n.kids| == 256
  {
    if !IsFull(n) then n.(kids := n.kids[b := kid])
    else Inner(Bigger(n.kind), SetPrefix(ZEROS, n.prefix, n.len), n.len, n.kids[b := kid])
  }

  ghost predicate OnPath(n: Node, k: Key, level: nat, key: Loader) {
    level <= |k| && (forall t {:trigger SharePath(key(t), k, level)} :: Has(n, t) ==> SharePath(key(t), k, level))
  }

  /** The key that supplies unstored prefix bytes; not looked at if all are stored. */
  function SampleKey(n: Node, k: Key, level: nat, size: nat, key: Loader): (kt: Key)
    requires n.Inner? && Shape(n, level, size, key) && (n.len > 0 ==> Sized(n)) && |k| == size
    ensures Sample(n, kt, key) && level + n.len < |kt|
  {
    if n.len > STORED then key(AnyTid(n, level, size, key)) else k
  }

  function Insert(n: Node, k: Key, tid: Tid, level: nat, size: nat, key: Loader): Node
    requires n.Inner? && Shape(n, level, size, key) && (n.len > 0 ==> Sized(n))
    requires |k| == size && OnPath(n, k, level, key)
    decreases n, 0
  {
    var c := Compare(n, k, level, SampleKey(n, k, level, size, key));
    if c.Differ? then SplitPrefix(n, tid, k, level, c) else
    var b := k[level + n.len];
    OnPathBelow(n, k, level, size, key);
    KidIs(n, b, level, size, key);
    if n.kids[b].Null? then AddKid(n, b, Leaf(tid))
    else n.(kids := n.kids[b := InsertBelow(n.kids[b], k, tid, level + n.len + 1, size, key)])
  }

  /** What takes the place of the child that `k` selects. */
  function InsertBelow(n: Node, k: Key, tid: Tid, level: nat, size: nat, key: Loader): Node
    requires !n.Null? && WellFormed(n, level, size, key) && |k| == size && OnPath(n, k, level, key)
    decreases n, 1
  {
    if n.Inner? then
      Insert(n, k, tid, level, size, key)
    else if key(n.tid) == k then
      Leaf(tid)
    else
      assert Has(n, n.tid) && SharePath(key(n.tid), k, level);
      SplitLeaf(n.tid, tid, k, level, key)
  }

  /** `kt` is good for the bytes the node does not store. */
  ghost predicate Sample(n: Node, kt: Key, key: Loader)
    requires n.Inner?
  {
    n.len > STORED ==> exists u :: Has(n, u) && kt == key(u)
  }

  /** Reading the unstored bytes from some key below gives the prefix of every key below. */
  lemma StopAgrees(n: Node, k: Key, level: nat, kt: Key, key: Loader, t: Tid)
    requires n.Inner? && PrefixOk(n, level, key) && Has(n, t)
    requires level + n.len < |k| && Sample(n, kt, key)
    ensures (n.len > STORED ==> level + n.len < |kt|)
    ensures var j := Stop(n, k, level, kt, 0);
            key(t)[level..level + j] == k[level..level + j]
  {
    var a, j := key(t), Stop(n, k, level, kt, 0);
    forall y | level <= y < level + j ensures a[y] == k[y] {
      StopByte(n, k, level, kt, key, t, y - level);
    }
    SameSlice(a, k, level, level + j);
  }

  lemma StopByte(n: Node, k: Key, level: nat, kt: Key, key: Loader, t: Tid, i: nat)
    requires n.Inner? && PrefixOk(n, level, key) && Has(n, t)
    requires level + n.len < |k| && Sample(n, kt, key) && (n.len > STORED ==> level + n.len < |kt|)
    requires i < Stop(n, k, level, kt, 0)
    ensures key(t)[level + i] == k[level + i]
  {
    ByteIs(n, level, kt, i, key, t);
    assert ByteAt(n, level, kt, i) == k[level + i];
  }

  lemma SameSlice(a: Key, b: Key, from: nat, to: nat)
    requires from <= to <= |a| && to <= |b|
    requires forall y :: from <= y < to ==> a[y] == b[y]
    ensures a[from..to] == b[from..to]
  {
  }

  lemma ByteIs(n: Node, level: nat, kt: Key, i: nat, key: Loader, t: Tid)
    requires n.Inner? && PrefixOk(n, level, key) && Has(n, t) && i < n.len
    requires Sample(n, kt, key)
    ensures n.len > STORED ==> level + n.len < |kt|
    ensures ByteAt(n, level, kt, i) == key(t)[level + i]
  {
    var m := Min(STORED, n.len);
    assert Stored(n, level, key(t));
    assert i < m ==> n.prefix[..m][i] == key(t)[level..level + m][i];
    if n.len > STORED {
      SampleIs(n, level, kt, i, key, t);
    }
  }

  lemma RestIs(n: Node, level: nat, kt: Key, i: nat, key: Loader, t: Tid)
    requires n.Inner? && PrefixOk(n, level, key) && Has(n, t) && i < n.len
    requires Sample(n, kt, key)
    requires n.len > STORED ==> level + n.len < |kt|
    ensures var m := Min(STORED, n.len - i - 1);
            Rest(n, level, kt, i)[..m] == key(t)[level + i + 1..level + i + 1 + m]
  {
    var m, r := Min(STORED, n.len - i - 1), Rest(n, level, kt, i);
    forall x | 0 <= x < m ensures r[x] == key(t)[level + i + 1 + x] {
      if n.len > STORED {
        assert r[x] == r[..m][x] == kt[level + i + 1..][x];
        SampleIs(n, level, kt, i + 1 + x, key, t);
      } else {
        assert r[x] == r[..m][x] == n.prefix[i + 1..][x];
        ByteIs(n, level, kt, i + 1 + x, key, t);
      }
    }
  }

  lemma SampleIs(n: Node, level: nat, kt: Key, i: nat, key: Loader, t: Tid)
    requires n.Inner? && PrefixOk(n, level, key) && Has(n, t) && i < n.len && n.len > STORED
    requires Sample(n, kt, key) && level + n.len < |kt|
    ensures kt[level + i] == key(t)[level + i]
  {
    var u :| Has(n, u) && kt == key(u);
    assert Both(n, u, t);
    assert kt[..level + n.len][level + i] == key(t)[..level + n.len][level + i];
  }

  /** Below the child that `k` selects, all keys agree with `k` up to and including that byte. */
  lemma OnPathBelow(n: Node, k: Key, level: nat, size: nat, key: Loader)
    requires n.Inner? && Shape(n, level, size, key) && |k| == size && OnPath(n, k, level, key)
    requires (n.len > 0 ==> Sized(n))
    requires Compare(n, k, level, SampleKey(n, k, level, size, key)).Same?
    ensures OnPath(n.kids[k[level + n.len]], k, level + n.len + 1, key)
  {
    var at := level + n.len;
    var kt := SampleKey(n, k, level, size, key);
    forall t | Has(n.kids[k[at]], t) ensures SharePath(key(t), k, at + 1) {
      HasKid(n, k[at], t);
      StopAgrees(n, k, level, kt, key, t);
      assert SharePath(key(t), k, level);
      ShareJoin(key(t), k, level, at);
      ShareNext(key(t), k, at);
    }
  }
}
