/** The radix tree as an object: its lookups run optimistically and are right all the same, and any
    sequence of operations acts on a finite map. */
module ArtMap {
  import opened ArtNode
  import opened ArtTree
  import opened ArtInsert
  import opened ArtRemove

  // ----- the prefix checks as loops -----------------------------------------------------------

  /** `checkPrefix` byte by byte. */
  method CheckPrefixLoop(n: Node, k: Key, level: nat) returns (c: Check)
    requires n.Inner? && |n.prefix| == STORED && level < |k|
    ensures c == CheckPrefix(n, k, level)
  {
    if n.len > 0 {
      if |k| <= level + n.len {
        return NoMatch;
      }
      var i, at := 0, level;
      while i < Min(n.len, STORED)
        invariant i <= Min(n.len, STORED) && at == level + i
        invariant n.prefix[..i] == k[level..at]
      {
        if n.prefix[i] != k[at] {
          assert n.prefix[..Min(STORED, n.len)][i] != k[level..level + Min(STORED, n.len)][i];
          return NoMatch;
        }
        assert n.prefix[..i + 1] == n.prefix[..i] + [n.prefix[i]] && k[level..at + 1] == k[level..at] + [k[at]];
        i, at := i + 1, at + 1;
      }
      if n.len > STORED {
        return Match(at + (n.len - STORED), true);
      }
      return Match(at, false);
    }
    return Match(level, false);
  }

  /** `checkPrefixPessimistic` byte by byte: some key below is loaded once, when the comparison gets
      past the stored bytes or has to report bytes that are not stored. */
  method ComparePessimistic(n: Node, k: Key, level: nat, size: nat, key: Loader) returns (c: Compared)
    requires n.Inner? && Shape(n, level, size, key) && (n.len > 0 ==> Sized(n)) && |k| == size
    ensures c == Compare(n, k, level, SampleKey(n, k, level, size, key))
  {
    ghost var want := SampleKey(n, k, level, size, key);
    var kt: Key := [];
    var i := 0;
    while i < n.len
      invariant i <= n.len && Stop(n, k, level, want, i) == Stop(n, k, level, want, 0)
      invariant i > STORED ==> kt == want
    {
      if i == STORED {
        kt := key(AnyTid(n, level, size, key));
      }
      var cur := if i >= STORED then kt[level + i] else n.prefix[i];
      assert cur == ByteAt(n, level, want, i);
      if cur != k[level + i] {
        var rest := ZEROS;
        if n.len > STORED {
          if i < STORED {
            kt := key(AnyTid(n, level, size, key));
          }
          rest := Copy(ZEROS, kt[level + i + 1..], Min(n.len - i - 1, STORED));
        } else {
          rest := Copy(ZEROS, n.prefix[i + 1..], n.len - i - 1);
        }
        return Differ(i, cur, rest);
      }
      i := i + 1;
    }
    return Same;
  }

  /** The loop that measures how far two keys agree. */
  method CommonLength(a: Key, b: Key, level: nat) returns (m: nat)
    requires |a| == |b| && a != b && SharePath(a, b, level)
    ensures m == CommonLen(a, b, level)
  {
    m := 0;
    DifferLater(a, b, level);
    while a[level + m] == b[level + m]
      invariant level + m < |a| && SharePath(a, b, level + m)
      invariant CommonLen(a, b, level) == m + CommonLen(a, b, level + m)
      decreases |a| - level - m
    {
      DifferLater(a, b, level + m);
      DifferLater(a, b, level + m + 1);
      m := m + 1;
    }
  }

  // ----- the tree -----------------------------------------------------------------------------

  class Tree {
    const size: nat
    const key: Loader
    var root: Node

    ghost predicate Valid() reads this {
      RootOk(root, size, key)
    }

    constructor (size: nat, key: Loader)
      requires 0 < size
      ensures Valid() && this.size == size && this.key == key
      ensures forall t :: !Has(root, t)
    {
      this.size, this.key := size, key;
      root := NewRoot();
      NewRootOk(size, key);
    }

    /** Skips the prefix bytes that are not stored and makes up for it by one comparison at the end,
        which it saves when every byte has been compared on the way. */
    method Lookup(k: Key) returns (tid: Tid)
      requires Valid() && |k| == size
      ensures tid != 0 ==> Has(root, tid) && key(tid) == k
      ensures tid == 0 ==> forall t :: Has(root, t) ==> key(t) != k
    {
      var check;
      tid, check := LookupLeaf(k);
      DescendOk(root, k, 0, size, key);
      if check && key(tid) != k {
        tid := 0;
      }
    }

    /** The descent of a lookup; `check` says that the key of the tuple is still to be compared. */
    method LookupLeaf(k: Key) returns (tid: Tid, check: bool)
      requires Valid() && |k| == size
      ensures tid == Descend(root, k, 0, size, key) && (check || tid == 0 || key(tid) == k)
    {
      var node, level, optimistic := root, 0, false;
      ghost var end := Descend(root, k, 0, size, key);
      while true
        invariant node.Inner? && Shape(node, level, size, key)
        invariant end == Descend(node, k, level, size, key)
        invariant !optimistic ==> OnPath(node, k, level, key)
        decreases node
      {
        var c := CheckPrefixLoop(node, k, level);
        if c.NoMatch? {
          return 0, false;
        }
        Onward(node, k, level, size, key, optimistic);
        optimistic := optimistic || c.optimistic;
        level := c.at;
        var kid := node.kids[k[level]];
        if kid.Null? {
          return 0, false;
        }
        if kid.Leaf? {
          tid, check := kid.tid, level < |k| - 1 || optimistic;
          if !check {
            LastByte(kid, k, size, key);
          }
          return;
        }
        node, level := kid, level + 1;
      }
    }

    method Insert(k: Key, tid: Tid)
      requires Valid() && |k| == size && key(tid) == k && 0 < tid
      modifies this
      ensures Valid() && Inserted(old(root), root, k, tid, key)
    {
      InsertOk(root, k, tid, 0, size, key);
      root := ArtTree.Insert(root, k, tid, 0, size, key);
    }

    method Remove(k: Key, tid: Tid)
      requires Valid() && |k| == size && 0 < tid
      modifies this
      ensures Valid()
      ensures forall t ::
          Has(root, t) <==> Has(old(root), t) && !(t == tid && Descend(old(root), k, 0, size, key) == tid)
      ensures key(tid) == k ==> Removed(old(root), root, tid)
    {
      RemoveOk(root, k, tid, 0, size, key, true);
      DescendOk(root, k, 0, size, key);
      root := ArtRemove.Remove(root, k, tid, 0, size, key, true);
    }
  }

  lemma NewRootOk(size: nat, key: Loader)
    requires 0 < size
    ensures RootOk(NewRoot(), size, key) && forall t :: !Has(NewRoot(), t)
  {
    forall t ensures !Has(NewRoot(), t) {}
  }

  /** A leaf whose whole path has been compared holds the key. */
  lemma LastByte(kid: Node, k: Key, size: nat, key: Loader)
    requires kid.Leaf? && |k| == size && OnPath(kid, k, size, key) && |key(kid.tid)| == size
    ensures key(kid.tid) == k
  {
    assert Has(kid, kid.tid) && SharePath(key(kid.tid), k, size);
    ShareAll(key(kid.tid), k);
  }

  /** One step of a lookup past a prefix that matched. */
  lemma Onward(n: Node, k: Key, level: nat, size: nat, key: Loader, optimistic: bool)
    requires n.Inner? && Shape(n, level, size, key) && |k| == size && CheckPrefix(n, k, level).Match?
    requires !optimistic ==> OnPath(n, k, level, key)
    ensures var at := level + n.len;
            var kid := n.kids[k[at]];
            && WellFormed(kid, at + 1, size, key) && (kid.Inner? ==> Shape(kid, at + 1, size, key))
            && Descend(n, k, level, size, key) == Descend(kid, k, at + 1, size, key)
            && (!optimistic && n.len <= STORED ==> OnPath(kid, k, at + 1, key))
  {
    KidIs(n, k[level + n.len], level, size, key);
    if !optimistic && n.len <= STORED {
      MatchedBelow(n, k, level, size, key);
    }
  }

  /** If every byte of the prefix is stored and matches, the keys below the child agree with `k`. */
  lemma MatchedBelow(n: Node, k: Key, level: nat, size: nat, key: Loader)
    requires n.Inner? && Shape(n, level, size, key) && |k| == size && OnPath(n, k, level, key)
    requires CheckPrefix(n, k, level) == Match(level + n.len, false)
    ensures OnPath(n.kids[k[level + n.len]], k, level + n.len + 1, key)
  {
    var at := level + n.len;
    forall t | Has(n.kids[k[at]], t) ensures SharePath(key(t), k, at + 1) {
      HasKid(n, k[at], t);
      assert Stored(n, level, key(t)) && SharePath(key(t), k, level);
      ShareJoin(key(t), k, level, at);
      ShareNext(key(t), k, at);
    }
  }

  // ----- whole histories ----------------------------------------------------------------------

  datatype Op = Put(k: Key, tid: Tid) | Del(k: Key, tid: Tid)

  /** Tuple IDs are positive and are used with the key they were loaded under. */
  predicate Proper(op: Op, size: nat, key: Loader) {
    0 < op.tid && key(op.tid) == op.k && |op.k| == size
  }

  ghost function Do(n: Node, op: Op, size: nat, key: Loader): Node {
    if !RootOk(n, size, key) || !Proper(op, size, key) then n
    else match op
      case Put(k, tid) => ArtTree.Insert(n, k, tid, 0, size, key)
      case Del(k, tid) => ArtRemove.Remove(n, k, tid, 0, size, key, true)
  }

  function DoMap(m: map<Key, Tid>, op: Op): map<Key, Tid> {
    match op
    case Put(k, tid) => m[k := tid]
    case Del(k, tid) => if k in m && m[k] == tid then m - {k} else m
  }

  ghost predicate Represents(n: Node, m: map<Key, Tid>, key: Loader) {
    && (forall t :: Has(n, t) <==> key(t) in m && m[key(t)] == t)
    && (forall k :: k in m ==> key(m[k]) == k)
  }

  lemma DoOk(n: Node, m: map<Key, Tid>, op: Op, size: nat, key: Loader)
    requires RootOk(n, size, key) && Proper(op, size, key) && Represents(n, m, key)
    ensures RootOk(Do(n, op, size, key), size, key)
    ensures Represents(Do(n, op, size, key), DoMap(m, op), key)
  {
    match op
    case Put(k, tid) => InsertOk(n, k, tid, 0, size, key);
    case Del(k, tid) =>
      RemoveOk(n, k, tid, 0, size, key, true);
      DescendOk(n, k, 0, size, key);
  }

  function NewRoot(): Node {
    Inner(N256, ZEROS, 0, Empty())
  }

  function DoMaps(ops: seq<Op>): map<Key, Tid> {
    if ops == [] then map[] else DoMap(DoMaps(ops[..|ops| - 1]), ops[|ops| - 1])
  }

  /** The trees a sequence of operations goes through. */
  ghost predicate History(trees: seq<Node>, ops: seq<Op>, size: nat, key: Loader) {
    && |trees| == |ops| + 1 && trees[0] == NewRoot()
    && (forall i :: 0 <= i < |ops| ==> Proper(ops[i], size, key))
    && (forall i :: 0 <= i < |ops| ==> trees[i + 1] == Do(trees[i], ops[i], size, key))
  }

  /** After any sequence of inserts and removes the tree is well formed and represents the finite map
      that the same operations make. */
  lemma {:induction false} HistoryOk(trees: seq<Node>, ops: seq<Op>, size: nat, key: Loader, i: nat)
    requires 0 < size && History(trees, ops, size, key) && i < |trees|
    ensures RootOk(trees[i], size, key) && Represents(trees[i], DoMaps(ops[..i]), key)
  {
    if i == 0 {
      NewRootOk(size, key);
    } else {
      HistoryOk(trees, ops, size, key, i - 1);
      assert ops[..i][..i - 1] == ops[..i - 1];
      assert trees[i - 1 + 1] == Do(trees[i - 1], ops[i - 1], size, key);
      DoOk(trees[i - 1], DoMaps(ops[..i - 1]), ops[i - 1], size, key);
    }
  }
}
