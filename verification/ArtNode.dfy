/** Nodes of the adaptive radix tree as values: which bytes of a compressed path a node really stores,
    what it holds, and when it is well formed. */
module ArtNode {

  type Byte = b: int | 0 <= b < 256
  type Key = seq<Byte>
  type Tid = nat

  /** A key of fixed length for every tuple ID: what `loadKey` returns. */
  type Loader = Tid -> Key

  const STORED: nat := 11

  datatype Kind = N4 | N16 | N48 | N256

  /** `prefix` is the whole 11-byte array, of which the first min(11, `len`) bytes mean something;
      `kids[b]` is the child under byte `b`, `Null` where there is none. */
  datatype Node =
    | Null
    | Leaf(tid: Tid)
    | Inner(kind: Kind, prefix: seq<Byte>, len: nat, kids: seq<Node>)

  function Min(a: nat, b: nat): nat {
    if a <= b then a else b
  }

  /** The tuple IDs in a subtree. */
  ghost predicate Has(n: Node, t: Tid) {
    match n
    case Null => false
    case Leaf(tid) => t == tid
    case Inner(_, _, _, kids) => exists b :: 0 <= b < |kids| && Has(kids[b], t)
  }

  function Count(kids: seq<Node>): nat {
    if kids == [] then 0 else Count(kids[1..]) + (if kids[0].Null? then 0 else 1)
  }

  // ----- occupancy ----------------------------------------------------------------------------

  function Capacity(kind: Kind): nat {
    match kind case N4 => 4 case N16 => 16 case N48 => 48 case N256 => 256
  }

  function Least(kind: Kind): nat {
    match kind case N4 => 2 case N16 => 3 case N48 => 12 case N256 => 37
  }

  /** The count field has eight bits. */
  function StoredCount(n: Node): nat
    requires n.Inner?
  {
    Count(n.kids) % 256
  }

  /** `isFull`: no 256-slot node ever is. */
  predicate IsFull(n: Node)
    requires n.Inner?
  {
    n.kind != N256 && StoredCount(n) == Capacity(n.kind)
  }

  /** `isUnderfull`: a four-slot node never is, it is dissolved instead. */
  predicate IsUnderfull(n: Node)
    requires n.Inner?
  {
    n.kind != N4 && StoredCount(n) == Least(n.kind)
  }

  function Bigger(kind: Kind): Kind {
    match kind case N4 => N16 case N16 => N48 case N48 => N256 case N256 => N256
  }

  function Smaller(kind: Kind): Kind {
    match kind case N4 => N4 case N16 => N4 case N48 => N16 case N256 => N48
  }

  // ----- well-formedness ----------------------------------------------------------------------

  ghost predicate Both(n: Node, t: Tid, u: Tid) {
    Has(n, t) && Has(n, u)
  }

  /** The stored bytes are bytes of key `a` from `level` on. */
  ghost predicate Stored(n: Node, level: nat, a: Key)
    requires n.Inner? && |n.prefix| == STORED && level + n.len < |a|
  {
    n.prefix[..Min(STORED, n.len)] == a[level..level + Min(STORED, n.len)]
  }

  ghost predicate SharePath(a: Key, b: Key, at: nat) {
    at <= |a| && at <= |b| && a[..at] == b[..at]
  }

  lemma ShareLess(a: Key, b: Key, at: nat, from: nat, to: nat)
    requires SharePath(a, b, at) && from <= to <= at
    ensures SharePath(a, b, to) && a[from..to] == b[from..to]
  {
    assert a[from..to] == a[..at][from..to];
    assert b[from..to] == b[..at][from..to];
    assert a[..to] == a[..at][..to];
    assert b[..to] == b[..at][..to];
  }

  lemma ShareJoin(a: Key, b: Key, level: nat, at: nat)
    requires SharePath(a, b, level) && level <= at <= |a| && at <= |b| && a[level..at] == b[level..at]
    ensures SharePath(a, b, at)
  {
    assert a[..at] == a[..level] + a[level..at];
    assert b[..at] == b[..level] + b[level..at];
  }

  lemma ShareNext(a: Key, b: Key, at: nat)
    requires SharePath(a, b, at) && at < |a| && at < |b|
    ensures a[at] == b[at] <==> SharePath(a, b, at + 1)
  {
    assert a[..at + 1] == a[..at] + [a[at]];
    assert b[..at + 1] == b[..at] + [b[at]];
    assert a[..at + 1][at] == a[at] && b[..at + 1][at] == b[at];
  }

  lemma ShareAll(a: Key, b: Key)
    requires |a| == |b| && SharePath(a, b, |a|)
    ensures a == b
  {
    assert a == a[..|a|] && b == b[..|a|];
  }

  /** All keys below agree on everything up to the node's own byte, and the stored bytes are theirs. */
  ghost predicate PrefixOk(n: Node, level: nat, key: Loader)
    requires n.Inner?
  {
    && |n.prefix| == STORED
    && (forall t :: Has(n, t) ==> level + n.len < |key(t)|)
    && (forall t {:trigger Stored(n, level, key(t))} :: Has(n, t) ==> Stored(n, level, key(t)))
    && (forall t, u {:trigger Both(n, t, u)} :: Both(n, t, u) ==> SharePath(key(t), key(u), level + n.len))
  }

  /** The child under byte `b` holds keys that have `b` at the node's position. */
  ghost predicate KidsOk(n: Node, level: nat, key: Loader)
    requires n.Inner?
  {
    && |n.kids| == 256
    && (forall b, t :: 0 <= b < 256 && Has(n.kids[b], t) ==> level + n.len < |key(t)| && key(t)[level + n.len] == b)
  }

  ghost predicate Sized(n: Node)
    requires n.Inner?
  {
    Least(n.kind) <= Count(n.kids) <= Capacity(n.kind)
  }

  /** A subtree whose keys are `size` bytes long and start at byte `level`. */
  ghost predicate WellFormed(n: Node, level: nat, size: nat, key: Loader)
    decreases n, 2
  {
    match n
    case Null => true
    case Leaf(t) => 0 < t && |key(t)| == size && level <= size
    case Inner(_, _, _, _) => Sized(n) && Shape(n, level, size, key)
  }

  ghost predicate Shape(n: Node, level: nat, size: nat, key: Loader)
    requires n.Inner?
    decreases n, 1
  {
    && level + n.len < size && PrefixOk(n, level, key) && KidsOk(n, level, key)
    && (forall b {:trigger KidOk(n, b, level, size, key)} :: 0 <= b < 256 ==> KidOk(n, b, level, size, key))
  }

  ghost predicate KidOk(n: Node, b: nat, level: nat, size: nat, key: Loader)
    requires n.Inner? && b < |n.kids|
    decreases n, 0
  {
    WellFormed(n.kids[b], level + n.len + 1, size, key)
  }

  lemma KidIs(n: Node, b: nat, level: nat, size: nat, key: Loader)
    requires n.Inner? && Shape(n, level, size, key) && b < 256
    ensures WellFormed(n.kids[b], level + n.len + 1, size, key)
    ensures n.kids[b].Leaf? ==> 0 < n.kids[b].tid && |key(n.kids[b].tid)| == size
    ensures n.kids[b].Inner? ==> Sized(n.kids[b]) && Shape(n.kids[b], level + n.len + 1, size, key)
  {
    assert KidOk(n, b, level, size, key);
  }

  /** The root is a 256-slot node without prefix, and may hold anything from nothing to 256 children. */
  ghost predicate RootOk(n: Node, size: nat, key: Loader) {
    n.Inner? && n.kind == N256 && n.len == 0 && Shape(n, 0, size, key)
  }

  // ----- counting children --------------------------------------------------------------------

  lemma {:induction false} CountUpdate(kids: seq<Node>, b: nat, n: Node)
    requires b < |kids|
    ensures Count(kids[b := n]) == Count(kids) - (if kids[b].Null? then 0 else 1) + (if n.Null? then 0 else 1)
  {
    if b == 0 {
      assert kids[b := n][1..] == kids[1..];
    } else {
      assert kids[b := n][1..] == kids[1..][b - 1 := n];
      CountUpdate(kids[1..], b - 1, n);
    }
  }

  lemma {:induction false} CountBound(kids: seq<Node>)
    ensures Count(kids) <= |kids|
    ensures Count(kids) == |kids| ==> forall b :: 0 <= b < |kids| ==> !kids[b].Null?
    ensures Count(kids) == 0 ==> forall b :: 0 <= b < |kids| ==> kids[b].Null?
  {
    if kids != [] {
      CountBound(kids[1..]);
      assert forall b :: 0 < b < |kids| ==> kids[b] == kids[1..][b - 1];
    }
  }

  function Empty(): (kids: seq<Node>)
    ensures |kids| == 256
    ensures forall b :: 0 <= b < 256 ==> kids[b] == Null
  {
    seq(256, _ => Null)
  }

  lemma {:induction false} CountNull(kids: seq<Node>)
    requires forall b :: 0 <= b < |kids| ==> kids[b].Null?
    ensures Count(kids) == 0
  {
    if kids != [] {
      CountNull(kids[1..]);
    }
  }

  lemma {:induction false} CountOne(kids: seq<Node>, b: nat)
    requires b < |kids| && !kids[b].Null? && Count(kids) == 1
    ensures forall x :: 0 <= x < |kids| && x != b ==> kids[x].Null?
  {
    CountUpdate(kids, b, Null);
    CountBound(kids[b := Null]);
    forall x | 0 <= x < |kids| && x != b ensures kids[x].Null? {
      assert kids[b := Null][x].Null?;
    }
  }

  lemma HasUpdate(n: Node, b: nat, kid: Node, t: Tid)
    requires n.Inner? && b < |n.kids|
    ensures Has(n.(kids := n.kids[b := kid]), t) <==>
            Has(kid, t) || exists x :: 0 <= x < |n.kids| && x != b && Has(n.kids[x], t)
  {
    var r := n.(kids := n.kids[b := kid]);
    if Has(kid, t) {
      assert Has(r.kids[b], t);
    }
    if x: int :| 0 <= x < |n.kids| && x != b && Has(n.kids[x], t) {
      assert Has(r.kids[x], t);
    }
  }

  /** A well-formed inner node is not empty. */
  lemma {:induction false} HasSome(n: Node, level: nat, size: nat, key: Loader) returns (t: Tid)
    requires !n.Null? && WellFormed(n, level, size, key)
    ensures Has(n, t)
    decreases n
  {
    if n.Leaf? {
      t := n.tid;
    } else {
      var b := SomeKid(n.kids);
      KidIs(n, b, level, size, key);
      t := HasSome(n.kids[b], level + n.len + 1, size, key);
    }
  }

  lemma SomeKid(kids: seq<Node>) returns (b: nat)
    requires Count(kids) > 0
    ensures b < |kids| && !kids[b].Null?
  {
    if forall x :: 0 <= x < |kids| ==> kids[x].Null? {
      CountNull(kids);
    }
    b :| 0 <= b < |kids| && !kids[b].Null?;
  }

  lemma HasKid(n: Node, b: nat, t: Tid)
    requires n.Inner? && b < |n.kids| && Has(n.kids[b], t)
    ensures Has(n, t)
  {
  }

  /** A key below the node is below the child its own byte selects. */
  lemma KidOf(n: Node, level: nat, key: Loader, t: Tid)
    requires n.Inner? && KidsOk(n, level, key) && Has(n, t)
    ensures level + n.len < |key(t)| && Has(n.kids[key(t)[level + n.len]], t)
  {
  }
}
