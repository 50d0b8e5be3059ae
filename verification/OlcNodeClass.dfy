/** The two node classes with their arrays updated in place, proved against the values in OlcNode. */
module OlcNodeClass {
  import opened Entries
  import opened OlcNode
  import opened Arrays

  lemma SwapIsSplice<T>(s: seq<T>, pos: nat, x: T)
    requires pos < |s|
    ensures var t := s[..pos] + [x] + s[pos..];
            t[pos := t[pos + 1]][pos + 1 := t[pos]] == s[..pos + 1] + [x] + s[pos + 1..]
  {
  }

  class BTreeLeaf {
    const data: array<Entry>
    var count: nat

    ghost predicate Sized()
      reads this
    {
      data.Length == LEAF_MAX && count <= LEAF_MAX
    }

    ghost predicate Valid()
      reads this, data
    {
      Sized() && Sorted(KeysOf(data[..count]))
    }

    ghost function Contents(): seq<Entry>
      reads this, data
      requires count <= data.Length
    {
      data[..count]
    }

    constructor ()
      ensures Valid() && Contents() == [] && fresh(data)
    {
      data := new Entry[LEAF_MAX](_ => Entry(0, 0));
      count := 0;
    }

    /** A do-while binary search: on an empty leaf it still compares with the stale slot 0, and then
        answers 0 or 1; callers compare the answer with count. */
    method LowerBound(k: Key) returns (pos: nat)
      requires Valid()
      ensures count > 0 ==> pos == Entries.LowerBound(KeysOf(Contents()), k)
      ensures count == 0 ==> pos <= 1
    {
      ghost var keys := KeysOf(Contents());
      var lower, upper: nat := 0, count;
      var first := true;
      while first || lower < upper
        invariant first ==> lower == 0 && upper == count
        invariant count > 0 ==> lower <= upper <= count
        invariant count == 0 ==> lower <= 1 && upper == 0
        invariant count > 0 ==> forall i :: 0 <= i < lower ==> keys[i] < k
        invariant count > 0 && upper < count ==> k < keys[upper]
        decreases first, upper - lower
      {
        first := false;
        var mid := (upper - lower) / 2 + lower;
        var middle := data[mid].key;
        assert count > 0 ==> middle == keys[mid];
        if k < middle {
          upper := mid;
        } else if k > middle {
          lower := mid + 1;
        } else {
          if count > 0 {
            LowerBoundUnique(keys, k, mid);
          }
          return mid;
        }
      }
      if count > 0 {
        LowerBoundUnique(keys, k, lower);
      }
      return lower;
    }

    method InsertAt(pos: nat, e: Entry)
      requires Sized() && count < LEAF_MAX && pos <= count
      modifies this, data
      ensures Sized() && Contents() == old(Contents()[..pos]) + [e] + old(Contents()[pos..])
    {
      assert data[..pos] == Contents()[..pos] && data[pos..count] == Contents()[pos..];
      ShiftIn(data, pos, count - pos, e);
      count := count + 1;
    }

    method Insert(k: Key, v: Value)
      requires Valid() && count < LEAF_MAX
      modifies this, data
      ensures Valid() && Contents() == LeafPut(old(Contents()), k, v)
    {
      LeafPutSorted(Contents(), k, v);
      if count > 0 {
        var pos := LowerBound(k);
        PutAt(pos, Entry(k, v));
      } else {
        InsertAt(0, Entry(k, v));
      }
    }

    method PutAt(pos: nat, e: Entry)
      requires Sized() && count < LEAF_MAX && pos == Entries.LowerBound(KeysOf(Contents()), e.key)
      modifies this, data
      ensures Sized() && Contents() == LeafPut(old(Contents()), e.key, e.val)
    {
      if pos < count && data[pos].key == e.key {
        Replace(pos, e);
      } else {
        InsertAt(pos, e);
      }
    }

    method Replace(pos: nat, e: Entry)
      requires Sized() && pos < count
      modifies data
      ensures Sized() && Contents() == old(Contents())[pos := e]
    {
      data[pos] := e;
    }

    /** What lookup does with the leaf it reached. */
    method Get(k: Key) returns (r: Option<Value>)
      requires Valid()
      ensures r == LeafGet(Contents(), k)
    {
      var pos := LowerBound(k);
      if pos < count && data[pos].key == k {
        return Some(data[pos].val);
      }
      return None;
    }

    /** What scan does with the leaf it reached. */
    method Collect(k: Key, range: nat) returns (output: seq<Value>)
      requires Valid()
      ensures output == LeafScan(Contents(), k, range)
    {
      var pos := LowerBound(k);
      output := [];
      var i := pos;
      while i < count
        invariant pos <= i && (i == pos || i <= count)
        invariant |output| == i - pos <= range
        invariant forall j :: 0 <= j < |output| ==> output[j] == data[pos + j].val
      {
        if |output| == range {
          break;
        }
        output := output + [data[i].val];
        i := i + 1;
      }
      CollectIs(Contents(), k, range, pos, output);
    }

    static lemma CollectIs(was: seq<Entry>, k: Key, range: nat, pos: nat, output: seq<Value>)
      requires was != [] ==> pos == Entries.LowerBound(KeysOf(was), k)
      requires |output| == if |was| <= pos then 0 else if range < |was| - pos then range else |was| - pos
      requires forall j :: 0 <= j < |output| ==> output[j] == was[pos + j].val
      ensures output == LeafScan(was, k, range)
    {
    }

    // The new leaf takes the entries from `cut` on.
    method MoveTail(right: BTreeLeaf, cut: nat)
      requires Sized() && right.Sized() && right != this && right.data != data && cut <= count
      modifies this, right, right.data
      ensures Sized() && right.Sized()
      ensures Contents() == old(Contents()[..cut]) && right.Contents() == old(Contents()[cut..])
    {
      right.count := count - cut;
      CopyOut(right.data, data, cut, right.count);
      count := cut;
    }

    method Split() returns (right: BTreeLeaf, sep: Key)
      requires Valid() && count >= 2
      modifies this
      ensures Valid() && right.Valid() && fresh(right) && fresh(right.data)
      ensures var was, cut := old(Contents()), LeafCut(old(Contents()));
              Contents() == was[..cut] && right.Contents() == was[cut..] && sep == was[cut - 1].key
    {
      KeysCut(Contents(), count / 2);
      SortedCut(KeysOf(Contents()), count / 2);
      right := new BTreeLeaf();
      MoveTail(right, count - (count - count / 2));
      sep := data[count - 1].key;
    }
  }

  class BTreeInner {
    const children: array<nat>
    const keys: array<Key>
    var count: nat

    ghost predicate Valid()
      reads this, keys
    {
      Sized() && Sorted(keys[..count])
    }

    ghost predicate Sized()
      reads this
    {
      children.Length == INNER_MAX && keys.Length == INNER_MAX && 1 <= count <= INNER_FULL
    }

    ghost function Keys(): seq<Key>
      reads this, keys
      requires count <= keys.Length
    {
      keys[..count]
    }

    ghost function Children(): seq<nat>
      reads this, children
      requires count < children.Length
    {
      children[..count + 1]
    }

    /** The node makeRoot builds. */
    constructor MakeRoot(k: Key, left: nat, right: nat)
      ensures Valid() && Keys() == [k] && Children() == [left, right] && fresh(keys) && fresh(children)
    {
      keys := new Key[INNER_MAX](_ => 0);
      children := new nat[INNER_MAX](_ => 0);
      count := 1;
      new;
      keys[0] := k;
      children[0] := left;
      children[1] := right;
    }

    method LowerBound(k: Key) returns (pos: nat)
      requires Valid()
      ensures pos == Entries.LowerBound(Keys(), k)
    {
      ghost var ks := Keys();
      var lower, upper: nat := 0, count;
      var first := true;
      while first || lower < upper
        invariant first ==> lower == 0 && upper == count
        invariant lower <= upper <= count
        invariant forall i :: 0 <= i < lower ==> ks[i] < k
        invariant upper < count ==> k < ks[upper]
        decreases first, upper - lower
      {
        first := false;
        var mid := (upper - lower) / 2 + lower;
        assert keys[mid] == ks[mid];
        if k < keys[mid] {
          upper := mid;
        } else if k > keys[mid] {
          lower := mid + 1;
        } else {
          LowerBoundUnique(ks, k, mid);
          return mid;
        }
      }
      LowerBoundUnique(ks, k, lower);
      return lower;
    }

    method ShiftKeys(pos: nat, k: Key)
      requires Sized() && count < INNER_FULL && pos <= count
      modifies keys
      ensures keys[..count + 1] == old(Keys()[..pos]) + [k] + old(Keys()[pos..])
    {
      assert keys[..pos] == Keys()[..pos] && keys[pos..count + 1][..count - pos] == Keys()[pos..];
      ShiftIn(keys, pos, count - pos + 1, k);
      assert keys[..count + 1] == keys[..count + 2][..count + 1];
    }

    /** The new child is stored at pos and then swapped with the old one, so that it ends up to the
        right of the separator. */
    method ShiftChildren(pos: nat, child: nat)
      requires Sized() && count < INNER_FULL && pos <= count
      modifies children
      ensures children[..count + 2] == old(Children()[..pos + 1]) + [child] + old(Children()[pos + 1..])
    {
      ghost var cs := Children();
      assert children[..pos] == cs[..pos] && children[pos..count + 1] == cs[pos..];
      ShiftIn(children, pos, count - pos + 1, child);
      ghost var now := children[..count + 2];
      children[pos], children[pos + 1] := children[pos + 1], children[pos];
      assert children[..count + 2] == now[pos := now[pos + 1]][pos + 1 := now[pos]];
      SwapIsSplice(cs, pos, child);
    }

    method Insert(k: Key, child: nat)
      requires Valid() && count < INNER_FULL
      modifies this, keys, children
      ensures Sized() && (k !in old(Keys()) ==> Valid())
      ensures Keys() == InsertKey(old(Keys()), k)
      ensures Children() == InsertChild(old(Keys()), old(Children()), k, child)
    {
      if k !in Keys() {
        InsertKeySorted(Keys(), k);
      }
      var pos := LowerBound(k);
      Splice(pos, k, child);
    }

    method Splice(pos: nat, k: Key, child: nat)
      requires Sized() && count < INNER_FULL && pos <= count
      modifies this, keys, children
      ensures Sized() && Keys() == old(Keys()[..pos]) + [k] + old(Keys()[pos..])
      ensures Children() == old(Children()[..pos + 1]) + [child] + old(Children()[pos + 1..])
    {
      ShiftKeys(pos, k);
      ShiftChildren(pos, child);
      count := count + 1;
    }

    // The new node takes what lies to the right of the key at `cut`; one key more than it counts is
    // copied, as many as there are children.
    method MoveTail(right: BTreeInner, cut: nat)
      requires Sized() && right.Sized() && right != this && right.keys != keys && right.children != children
      requires 1 <= cut && cut + 1 < count
      modifies this, right, right.keys, right.children
      ensures Sized() && right.Sized()
      ensures Keys() == old(Keys()[..cut]) && Children() == old(Children()[..cut + 1])
      ensures right.Keys() == old(Keys()[cut + 1..]) && right.Children() == old(Children()[cut + 1..])
    {
      right.count := count - cut - 1;
      CopyOut(right.keys, keys, cut + 1, right.count + 1);
      CopyOut(right.children, children, cut + 1, right.count + 1);
      assert right.Keys() == right.keys[..right.count + 1][..right.count];
      count := cut;
    }

    method Split() returns (right: BTreeInner, sep: Key)
      requires Valid() && count >= 4
      modifies this
      ensures Valid() && right.Valid() && fresh(right) && fresh(right.keys) && fresh(right.children)
      ensures var ks, cs, cut := old(Keys()), old(Children()), InnerCut(old(Keys()));
              && sep == ks[cut]
              && Keys() == ks[..cut] && Children() == cs[..cut + 1]
              && right.Keys() == ks[cut + 1..] && right.Children() == cs[cut + 1..]
    {
      right := new BTreeInner.MakeRoot(0, 0, 0);
      var cut := count - (count - count / 2) - 1;
      sep := keys[cut];
      MoveTail(right, cut);
    }
  }
}
