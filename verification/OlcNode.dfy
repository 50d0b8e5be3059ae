/** Contents of B+tree nodes as values: what `BTreeLeaf` and `BTreeInner` hold, and what their
    search, insert and split compute. Both node classes and the concurrent protocol refer to these. */
module OlcNode {

  import opened Entries

  // sizeof(NodeBase) = 16: an 8-byte lock word, a type byte and a 2-byte count, padded.
  const PAGE_SIZE := 4096
  const NODE_BASE := 16
  const ENTRY_SIZE := 16
  const LEAF_MAX: nat := (PAGE_SIZE - NODE_BASE) / ENTRY_SIZE
  const INNER_MAX: nat := (PAGE_SIZE - NODE_BASE) / ENTRY_SIZE
  // BTreeInner::isFull compares with maxEntries - 1: one slot is kept for the last child.
  const INNER_FULL: nat := INNER_MAX - 1

  /** What a one-leaf scan copies out: at most `range` payloads from the first key not below `k`. */
  function LeafScan(data: seq<Entry>, k: Key, range: nat): (r: seq<Value>)
  {
    var pos := LowerBound(KeysOf(data), k);
    var n := if range < |data| - pos then range else |data| - pos;
    seq(n, i requires 0 <= i < n => data[pos + i].val)
  }

  lemma KeysCut(data: seq<Entry>, cut: nat)
    requires cut <= |data|
    ensures KeysOf(data[..cut]) == KeysOf(data)[..cut] && KeysOf(data[cut..]) == KeysOf(data)[cut..]
  {
  }

  lemma SortedCut(keys: seq<Key>, cut: nat)
    requires Sorted(keys) && cut <= |keys|
    ensures Sorted(keys[..cut]) && Sorted(keys[cut..])
  {
  }

  /** On which side of a cut a key is looked up. */
  lemma BoundSide(keys: seq<Key>, cut: nat, x: Key)
    requires Sorted(keys) && 0 < cut <= |keys|
    ensures x <= keys[cut - 1] ==> LowerBound(keys, x) < cut
    ensures keys[cut - 1] < x ==> cut <= LowerBound(keys, x)
  {
  }

  /** Cutting a sorted leaf anywhere keeps its meaning on each side of the cut. */
  lemma LeafCutGet(data: seq<Entry>, cut: nat, x: Key)
    requires Sorted(KeysOf(data)) && 0 < cut <= |data|
    ensures Sorted(KeysOf(data[..cut])) && Sorted(KeysOf(data[cut..]))
    ensures x <= data[cut - 1].key ==> LeafGet(data[..cut], x) == LeafGet(data, x)
    ensures data[cut - 1].key < x ==> LeafGet(data[cut..], x) == LeafGet(data, x)
  {
    KeysCut(data, cut);
    SortedCut(KeysOf(data), cut);
    if x <= data[cut - 1].key {
      CutLeft(data, cut, x);
    } else {
      CutRight(data, cut, x);
    }
  }

  lemma CutLeft(data: seq<Entry>, cut: nat, x: Key)
    requires Sorted(KeysOf(data)) && 0 < cut <= |data| && x <= data[cut - 1].key
    ensures LeafGet(data[..cut], x) == LeafGet(data, x)
  {
    KeysCut(data, cut);
    BoundSide(KeysOf(data), cut, x);
    LowerBoundPart(KeysOf(data), x, cut);
    GetShifted(data, data[..cut], x, 0);
  }

  lemma CutRight(data: seq<Entry>, cut: nat, x: Key)
    requires Sorted(KeysOf(data)) && 0 < cut <= |data| && data[cut - 1].key < x
    ensures LeafGet(data[cut..], x) == LeafGet(data, x)
  {
    KeysCut(data, cut);
    BoundSide(KeysOf(data), cut, x);
    LowerBoundPart(KeysOf(data), x, cut);
    GetShifted(data, data[cut..], x, cut);
  }

  /** A part of a leaf that finds the key at the same entry gives the same answer. */
  lemma GetShifted(data: seq<Entry>, part: seq<Entry>, x: Key, off: nat)
    requires LowerBound(KeysOf(data), x) == LowerBound(KeysOf(part), x) + off
    requires off + |part| <= |data| && (forall i :: 0 <= i < |part| ==> part[i] == data[off + i])
    requires LowerBound(KeysOf(part), x) < |part| || off + |part| == |data|
    ensures LeafGet(part, x) == LeafGet(data, x)
  {
  }

  // Leaf split: the left half keeps count / 2 entries and its last key becomes the separator.
  function LeafCut(data: seq<Entry>): (cut: nat)
    ensures cut <= |data|
  {
    |data| / 2
  }

  // Inner split: the left part keeps count / 2 - 1 keys, the next key moves up as the separator.
  function InnerCut(keys: seq<Key>): (cut: nat)
    requires |keys| >= 2
    ensures cut < |keys|
  {
    |keys| / 2 - 1
  }

  /** Where the child to the right of a new separator goes in an inner node. */
  function InsertChild<T>(keys: seq<Key>, children: seq<T>, sep: Key, child: T): (r: seq<T>)
    requires |children| == |keys| + 1
    ensures |r| == |children| + 1
  {
    var pos := LowerBound(keys, sep);
    children[..pos + 1] + [child] + children[pos + 1..]
  }
}
