/** Nodes of btree-rtm: sixteen slots filled in order of arrival, and a word of sixteen nibbles that lists
    them in key order. What each node operation does to the listed items is stated by functions on
    sequences, which the tree is built from. */
module RtmNode {
  import opened Entries
  import opened Nibbles

  const CAPACITY: nat := 16
  const MERGE_THRESHOLD: nat := CAPACITY / 4

  // ----- the items of a node ------------------------------------------------------------------

  /** Items in key order; the first separator of an inner node is a placeholder and may be anything. */
  ghost predicate Ordered(items: seq<Entry>, inner: bool) {
    forall i, j :: (if inner then 1 else 0) <= i < j < |items| ==> items[i].key < items[j].key
  }

  /** The first item not below `k`; the first item of an inner node is not looked at. */
  ghost predicate IsLb(items: seq<Entry>, inner: bool, k: Key, pos: nat) {
    && pos <= |items| && (inner && items != [] ==> 1 <= pos)
    && (forall i :: (if inner then 1 else 0) <= i < pos ==> items[i].key < k)
    && (pos < |items| ==> k <= items[pos].key)
  }

  /** The first item above `k`, not counting the first item. */
  ghost predicate IsUb(items: seq<Entry>, k: Key, pos: nat) {
    && 1 <= pos <= |items|
    && (forall i :: 1 <= i < pos ==> items[i].key <= k)
    && (pos < |items| ==> k < items[pos].key)
  }

  function Spliced(items: seq<Entry>, pos: nat, e: Entry): seq<Entry>
    requires pos <= |items|
  {
    items[..pos] + [e] + items[pos..]
  }

  function Without(items: seq<Entry>, pos: nat): seq<Entry>
    requires pos < |items|
  {
    items[..pos] + items[pos + 1..]
  }

  // ----- the node in memory -------------------------------------------------------------------

  /** The first `size` nibbles are distinct slots below `size`. */
  ghost predicate Slots(p: Word, size: nat) {
    && |p| == 16 && size <= 16
    && (forall i :: 0 <= i < size ==> p[i] < size)
    && (forall i, j :: 0 <= i < j < size ==> p[i] != p[j])
  }

  ghost function Listed(data: seq<Entry>, p: Word, size: nat): (items: seq<Entry>)
    requires |data| == 16 && |p| == 16 && size <= 16
    ensures |items| == size && forall i :: 0 <= i < size ==> items[i] == data[p[i]]
  {
    seq(size, i requires 0 <= i < size => data[p[i]])
  }

  /** The word after an insertion at `pos`: higher nibbles move up and the new slot goes between. */
  function InsertNibble(p: Word, size: Nibble, pos: nat): Word
    requires |p| == 16
  {
    Or(Or(Shl(And(p, Not(Low(16, pos))), 1), Single(16, size, pos)), And(p, Low(16, pos)))
  }

  lemma InsertNibbleAt(p: Word, size: Nibble, pos: nat, i: nat)
    requires |p| == 16 && pos < 16 && i < 16
    ensures var r := InsertNibble(p, size, pos);
            |r| == 16 && r[i] == if i < pos then p[i] else if i == pos then size else p[i - 1]
  {
    var kept := And(p, Not(Low(16, pos)));
    var up := Shl(kept, 1);
    assert up[i] == if i <= pos then 0 else p[i - 1];
  }

  lemma InsertSlots(p: Word, size: nat, pos: nat)
    requires Slots(p, size) && pos <= size < 16
    ensures Slots(InsertNibble(p, size, pos), size + 1)
  {
    var r := InsertNibble(p, size, pos);
    forall i | 0 <= i <= size ensures |r| == 16 && InsertedAt(p, r, size, pos, i) {
      InsertNibbleAt(p, size, pos, i);
    }
    forall i, j | 0 <= i < j <= size ensures r[i] != r[j] {
      assert InsertedAt(p, r, size, pos, i) && InsertedAt(p, r, size, pos, j);
    }
    forall i | 0 <= i <= size ensures r[i] < size + 1 {
      assert InsertedAt(p, r, size, pos, i);
    }
  }

  predicate InsertedAt(p: Word, r: Word, size: nat, pos: nat, i: nat)
    requires |p| == |r| == 16 && pos < 16 && i < 16
  {
    r[i] == if i < pos then p[i] else if i == pos then size else p[i - 1]
  }

  lemma InsertListed(data: seq<Entry>, p: Word, size: nat, pos: nat, e: Entry)
    requires |data| == 16 && Slots(p, size) && pos <= size < 16
    ensures Slots(InsertNibble(p, size, pos), size + 1)
    ensures Listed(data[size := e], InsertNibble(p, size, pos), size + 1) == Spliced(Listed(data, p, size), pos, e)
  {
    InsertSlots(p, size, pos);
    var r := InsertNibble(p, size, pos);
    var a, b := Listed(data[size := e], r, size + 1), Spliced(Listed(data, p, size), pos, e);
    forall i | 0 <= i <= size ensures a[i] == b[i] {
      InsertNibbleAt(p, size, pos, i);
    }
  }

  /** Where a slot goes when slot `gone` is closed up. */
  function Closed(slot: Nibble, gone: Nibble): Nibble {
    if slot > gone then slot - 1 else slot
  }

  /** `r` lists the slots of `p` without the one at `pos`, closed up. */
  ghost predicate Dropped(p: Word, r: Word, size: nat, pos: nat)
    requires Slots(p, size) && pos < size
  {
    |r| == 16 && forall i :: 0 <= i < size - 1 ==> r[i] == Closed(p[if i < pos then i else i + 1], p[pos])
  }

  lemma DroppedSlots(p: Word, r: Word, size: nat, pos: nat)
    requires Slots(p, size) && pos < size && Dropped(p, r, size, pos)
    ensures Slots(r, size - 1)
  {
    forall i, j | 0 <= i < j < size - 1 ensures r[i] != r[j] {
      var i', j' := if i < pos then i else i + 1, if j < pos then j else j + 1;
      assert p[i'] != p[j'] && p[i'] != p[pos] && p[j'] != p[pos];
    }
    forall i | 0 <= i < size - 1 ensures r[i] < size - 1 {
      var i' := if i < pos then i else i + 1;
      assert p[i'] != p[pos];
    }
  }

  lemma DroppedListed(data: seq<Entry>, data': seq<Entry>, p: Word, r: Word, size: nat, pos: nat)
    requires |data| == 16 == |data'| && Slots(p, size) && pos < size && Dropped(p, r, size, pos)
    requires forall s :: 0 <= s < size - 1 ==> data'[s] == data[if s < p[pos] then s else s + 1]
    ensures Slots(r, size - 1) && Listed(data', r, size - 1) == Without(Listed(data, p, size), pos)
  {
    DroppedSlots(p, r, size, pos);
    var a, b := Listed(data', r, size - 1), Without(Listed(data, p, size), pos);
    forall i | 0 <= i < size - 1 ensures a[i] == b[i] {
      var i' := if i < pos then i else i + 1;
      assert p[i'] != p[pos];
    }
  }

  class BtNode {
    const data: array<Entry>
    const inner: bool
    var permute: Word
    var size: nat

    ghost predicate Sized()
      reads this
    {
      data.Length == 16 && Slots(permute, size)
    }

    ghost function Items(): seq<Entry>
      requires Sized()
      reads this, data
    {
      Listed(data[..], permute, size)
    }

    ghost predicate Valid()
      reads this, data
    {
      Sized() && Ordered(Items(), inner)
    }

    constructor (inner: bool)
      ensures Sized() && Items() == [] && this.inner == inner && fresh(data)
    {
      data := new Entry[16](_ => Entry(0, 0));
      permute := Single(16, 0, 0);
      size := 0;
      this.inner := inner;
    }

    /** btnode_at. */
    function At(i: nat): Entry
      requires Sized() && i < size
      reads this, data
      ensures At(i) == Items()[i]
    {
      data[permute[i]]
    }

    /** The search may start in the middle if the middle key is not above `k`. */
    method StartIndex(k: Key, otherwise: nat) returns (start: nat)
      requires Valid() && otherwise == if inner then 1 else 0
      ensures start == otherwise || (start == 8 < size && forall i :: otherwise <= i < start ==> Items()[i].key < k)
      ensures start == 8 ==> Items()[8].key <= k
    {
      if size > 8 && k >= At(8).key {
        return 8;
      }
      return otherwise;
    }

    method Lb(k: Key) returns (pos: nat, exact: bool)
      requires Valid()
      ensures IsLb(Items(), inner, k, pos)
      ensures exact <==> pos < size && Items()[pos].key == k
    {
      pos := StartIndex(k, if inner then 1 else 0);
      while pos < size
        invariant (if inner then 1 else 0) <= pos && (pos <= size || (size == 0 && pos == 1))
        invariant forall i :: (if inner then 1 else 0) <= i < pos && i < size ==> Items()[i].key < k
      {
        if At(pos).key >= k {
          return pos, At(pos).key == k;
        }
        pos := pos + 1;
      }
      return size, false;
    }

    method Ub(k: Key) returns (pos: nat)
      requires Valid() && inner && size > 0
      ensures IsUb(Items(), k, pos)
    {
      pos := StartIndex(k, 1);
      while pos < size
        invariant 1 <= pos <= size
        invariant forall i :: 1 <= i < pos ==> Items()[i].key <= k
      {
        if At(pos).key > k {
          return;
        }
        pos := pos + 1;
      }
    }

    /** The new entry takes the next slot; only its place in the word depends on its key. */
    method Insert(k: Key, v: Value) returns (ok: bool, ghost pos: nat)
      requires Valid() && size < CAPACITY
      modifies this, data
      ensures Sized() && IsLb(old(Items()), inner, k, pos)
      ensures ok <==> !(pos < old(size) && old(Items())[pos].key == k)
      ensures Items() == if ok then Spliced(old(Items()), pos, Entry(k, v)) else old(Items())
    {
      ghost var was := data[..];
      data[size] := Entry(k, v);
      assert data[..] == was[size := Entry(k, v)];
      assert Items() == Listed(was, permute, size);
      var at, exact := Lb(k);
      pos := at;
      if exact {
        return false, pos;
      }
      InsertListed(was, permute, size, at, Entry(k, v));
      permute := InsertNibble(permute, size, at);
      size := size + 1;
      ok := true;
    }

    /** btnode_removeat: the slot is closed up and the word rebuilt. */
    method RemoveAt(pos: nat)
      requires Sized() && pos < size && (inner ==> pos != 0)
      modifies this, data
      ensures Sized() && size == old(size) - 1 && Items() == Without(old(Items()), pos)
    {
      ghost var was := data[..];
      var gone := permute[pos];
      CloseUp(gone);
      var r := CloseWord(permute, size, pos);
      DroppedListed(was, data[..], permute, r, size, pos);
      permute := r;
      size := size - 1;
    }

    /** memmove of the slots above `gone`. */
    method CloseUp(gone: nat)
      requires data.Length == 16 && gone < size <= 16
      modifies data
      ensures forall s :: 0 <= s < size - 1 ==> data[s] == old(data[..])[if s < gone then s else s + 1]
    {
      forall s | gone <= s < size - 1 {
        data[s] := data[s + 1];
      }
    }

    /** The loop that lists the remaining slots anew. */
    static method CloseWord(p: Word, size: nat, pos: nat) returns (r: Word)
      requires Slots(p, size) && pos < size
      ensures Dropped(p, r, size, pos)
    {
      r := Single(16, 0, 0);
      var offset, i := 0, 0;
      while i < size
        invariant i <= size && offset == (if i <= pos then i else i - 1) && |r| == 16
        invariant forall t :: 0 <= t < offset ==> r[t] == Closed(p[if t < pos then t else t + 1], p[pos])
        invariant forall t :: offset <= t < 16 ==> r[t] == 0
      {
        var slot := p[i];
        assert i != pos ==> slot != p[pos];
        if slot != p[pos] {
          r := Or(r, Single(16, Closed(slot, p[pos]), offset));
          offset := offset + 1;
        }
        i := i + 1;
      }
    }

    /** Copies listed items `from .. to` in order to the slots from `into` on. */
    method CopyItems(temp: array<Entry>, from: nat, to: nat, into: nat)
      requires Sized() && from <= to <= size && temp.Length == 16 && into + (to - from) <= 16 && temp != data
      modifies temp
      ensures temp[..into + (to - from)] == old(temp[..into]) + Items()[from..to]
    {
      for i := from to to
        invariant forall j :: 0 <= j < into ==> temp[j] == old(temp[j])
        invariant forall j :: from <= j < i ==> temp[into + (j - from)] == Items()[j]
      {
        temp[into + (i - from)] := At(i);
      }
      assert temp[..into] == old(temp[..into]);
      assert temp[into..into + (to - from)] == Items()[from..to];
      assert temp[..into + (to - from)] == temp[..into] + temp[into..into + (to - from)];
    }

    method ItemsIn(from: nat, to: nat) returns (temp: array<Entry>)
      requires Sized() && from <= to <= size
      ensures fresh(temp) && temp.Length == 16 && temp[..to - from] == Items()[from..to]
    {
      temp := new Entry[16](_ => Entry(0, 0));
      CopyItems(temp, from, to, 0);
    }

    /** The word that lists the first `n` slots in order. */
    static method InOrder(n: nat) returns (p: Word)
      requires n <= 16
      ensures Slots(p, n) && forall i :: 0 <= i < n ==> p[i] == i
    {
      p := Single(16, 0, 0);
      var i := 0;
      while i < n
        invariant i <= n && |p| == 16
        invariant forall t :: 0 <= t < 16 ==> p[t] == if t < i then t else 0
      {
        p := Or(p, Single(16, i, i));
        i := i + 1;
      }
    }

    method Refill(temp: array<Entry>, n: nat, ghost items: seq<Entry>)
      requires data.Length == 16 == temp.Length && temp != data && n <= 16 && temp[..n] == items
      modifies this, data
      ensures Sized() && size == n && Items() == items
    {
      forall i | 0 <= i < n {
        data[i] := temp[i];
      }
      permute := InOrder(n);
      size := n;
      assert forall i :: 0 <= i < n ==> data[i] == items[i];
    }

    /** btnode_split: the upper half goes to a new node, and both are left in order. */
    method Split() returns (right: BtNode)
      requires Sized()
      modifies this, data
      ensures Sized() && right.Sized() && fresh(right) && fresh(right.data) && right.inner == inner
      ensures var was, mid := old(Items()), old(size) / 2;
              Items() == was[..mid] && right.Items() == was[mid..]
    {
      ghost var was := Items();
      var mid := size / 2;
      var temp := ItemsIn(mid, size);
      var low := ItemsIn(0, mid);
      right := new BtNode(inner);
      right.Refill(temp, size - mid, was[mid..]);
      Refill(low, mid, was[..mid]);
    }

    /** btnode_merge: the items of the right node follow those of this one. */
    method Merge(right: BtNode)
      requires Sized() && right.Sized() && right != this && right.data != data && size + right.size < CAPACITY
      modifies this, data, right
      ensures Sized() && Items() == old(Items()) + old(right.Items())
    {
      ghost var l, r := Items(), right.Items();
      var n := size + right.size;
      var temp := ItemsIn(0, size);
      assert temp[..size] == l;
      right.CopyItems(temp, 0, right.size, size);
      assert temp[..n] == l + r;
      right.size, right.permute := 0, Single(16, 0, 0);
      Refill(temp, n, l + r);
    }

    method SetValue(pos: nat, v: Value)
      requires Sized() && pos < size
      modifies data
      ensures Sized() && Items() == old(Items())[pos := Entry(old(Items())[pos].key, v)]
    {
      data[permute[pos]] := Entry(data[permute[pos]].key, v);
    }
  }
}
