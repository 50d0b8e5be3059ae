/** The four node layouts of the radix tree with their arrays. Each keeps a map from bytes to children;
    growing and shrinking carries that map from one layout to the next unchanged. */
module ArtLayouts {
  import opened ArtNode
  import opened Arrays

  /** A child pointer; 0 is the null pointer. */
  type Ptr = nat

  // ----- sorted keys with children ------------------------------------------------------------

  ghost predicate Ascending(ks: seq<Byte>) {
    forall i, j :: 0 <= i < j < |ks| ==> ks[i] < ks[j]
  }

  ghost predicate TieAt(ks: seq<Byte>, cs: seq<Ptr>, m: map<Byte, Ptr>, i: nat)
    requires i < |ks| && i < |cs|
  {
    ks[i] in m && m[ks[i]] == cs[i] && cs[i] != 0
  }

  ghost predicate Listed(ks: seq<Byte>, b: Byte) {
    exists i :: 0 <= i < |ks| && ks[i] == b
  }

  /** `m` maps each key to the child at the same place. */
  ghost predicate Ties(ks: seq<Byte>, cs: seq<Ptr>, m: map<Byte, Ptr>) {
    && |ks| == |cs| && Ascending(ks)
    && (forall i {:trigger TieAt(ks, cs, m, i)} :: 0 <= i < |ks| ==> TieAt(ks, cs, m, i))
    && (forall b {:trigger Listed(ks, b)} :: b in m ==> Listed(ks, b))
  }

  function Splice<T>(s: seq<T>, pos: nat, x: T): (r: seq<T>)
    requires pos <= |s|
    ensures |r| == |s| + 1 && r[pos] == x
    ensures forall i :: 0 <= i < pos ==> r[i] == s[i]
    ensures forall i :: pos < i < |r| ==> r[i] == s[i - 1]
  {
    s[..pos] + [x] + s[pos..]
  }

  function Cut<T>(s: seq<T>, pos: nat): (r: seq<T>)
    requires pos < |s|
    ensures |r| == |s| - 1
    ensures forall i :: 0 <= i < pos ==> r[i] == s[i]
    ensures forall i :: pos <= i < |r| ==> r[i] == s[i + 1]
  {
    s[..pos] + s[pos + 1..]
  }

  lemma {:induction false} TiesSize(ks: seq<Byte>, cs: seq<Ptr>, m: map<Byte, Ptr>)
    requires Ties(ks, cs, m)
    ensures |m| == |ks|
    decreases |ks|
  {
    if ks == [] {
      forall b ensures b !in m { assert b in m ==> Listed(ks, b); }
      assert m == map[];
    } else {
      var n := |ks| - 1;
      assert TieAt(ks, cs, m, n);
      TiesLast(ks, cs, m);
      TiesSize(ks[..n], cs[..n], m - {ks[n]});
      assert m == (m - {ks[n]})[ks[n] := m[ks[n]]];
    }
  }

  lemma TiesLast(ks: seq<Byte>, cs: seq<Ptr>, m: map<Byte, Ptr>)
    requires Ties(ks, cs, m) && ks != []
    ensures Ties(ks[..|ks| - 1], cs[..|ks| - 1], m - {ks[|ks| - 1]})
  {
    TiesRemove(ks, cs, m, |ks| - 1);
    assert Cut(ks, |ks| - 1) == ks[..|ks| - 1] && Cut(cs, |ks| - 1) == cs[..|ks| - 1];
  }

  lemma TiesInsert(ks: seq<Byte>, cs: seq<Ptr>, m: map<Byte, Ptr>, pos: nat, b: Byte, p: Ptr)
    requires Ties(ks, cs, m) && b !in m && p != 0 && pos <= |ks|
    requires forall i :: 0 <= i < pos ==> ks[i] < b
    requires pos < |ks| ==> b < ks[pos]
    ensures Ties(Splice(ks, pos, b), Splice(cs, pos, p), m[b := p])
  {
    var ks', cs', m' := Splice(ks, pos, b), Splice(cs, pos, p), m[b := p];
    AscendInsert(ks, pos, b);
    forall i | 0 <= i < |ks'| ensures TieAt(ks', cs', m', i) {
      if i < pos {
        assert TieAt(ks, cs, m, i);
      } else if i > pos {
        assert TieAt(ks, cs, m, i - 1);
      }
    }
    forall x | x in m' ensures Listed(ks', x) {
      if x == b {
        assert ks'[pos] == x;
      } else {
        assert Listed(ks, x);
        var i :| 0 <= i < |ks| && ks[i] == x;
        assert ks'[if i < pos then i else i + 1] == x;
      }
    }
  }

  lemma AscendInsert(ks: seq<Byte>, pos: nat, b: Byte)
    requires Ascending(ks) && pos <= |ks|
    requires forall i :: 0 <= i < pos ==> ks[i] < b
    requires pos < |ks| ==> b < ks[pos]
    ensures Ascending(Splice(ks, pos, b))
  {
    var r := Splice(ks, pos, b);
    forall i, j | 0 <= i < j < |r| ensures r[i] < r[j] {
      var i', j' := if i < pos then i else i - 1, if j < pos then j else j - 1;
      assert i != pos ==> r[i] == ks[i'];
      assert j != pos ==> r[j] == ks[j'];
    }
  }

  lemma TiesRemove(ks: seq<Byte>, cs: seq<Ptr>, m: map<Byte, Ptr>, pos: nat)
    requires Ties(ks, cs, m) && pos < |ks|
    ensures Ties(Cut(ks, pos), Cut(cs, pos), m - {ks[pos]})
  {
    var ks', cs', m' := Cut(ks, pos), Cut(cs, pos), m - {ks[pos]};
    forall i, j | 0 <= i < j < |ks'| ensures ks'[i] < ks'[j] {
      var i', j' := if i < pos then i else i + 1, if j < pos then j else j + 1;
      assert ks'[i] == ks[i'] && ks'[j] == ks[j'];
    }
    forall i | 0 <= i < |ks'| ensures TieAt(ks', cs', m', i) {
      var i' := if i < pos then i else i + 1;
      assert TieAt(ks, cs, m, i');
      assert ks'[i] == ks[i'] && cs'[i] == cs[i'] && ks[i'] != ks[pos];
    }
    forall x | x in m' ensures Listed(ks', x) {
      assert Listed(ks, x);
      var i :| 0 <= i < |ks| && ks[i] == x;
      assert ks'[if i < pos then i else i - 1] == x;
    }
  }

  lemma TiesChange(ks: seq<Byte>, cs: seq<Ptr>, m: map<Byte, Ptr>, pos: nat, p: Ptr)
    requires Ties(ks, cs, m) && pos < |ks| && p != 0
    ensures Ties(ks, cs[pos := p], m[ks[pos] := p])
  {
    var cs', m' := cs[pos := p], m[ks[pos] := p];
    assert TieAt(ks, cs, m, pos);
    forall i | 0 <= i < |ks| ensures TieAt(ks, cs', m', i) {
      assert TieAt(ks, cs, m, i);
    }
    forall x | x in m' ensures Listed(ks, x) {}
  }

  /** memmove of the elements after `pos` one place down. */
  method ShiftOut<T>(a: array<T>, pos: nat, n: nat)
    requires pos < n <= a.Length
    modifies a
    ensures a[..n - 1] == Cut(old(a[..n]), pos)
  {
    forall i | pos <= i < n - 1 {
      a[i] := a[i + 1];
    }
    ghost var r := Cut(old(a[..n]), pos);
    forall i | 0 <= i < n - 1 ensures a[i] == r[i] {}
  }

  /** memmove of the elements from `pos` on one place up, then a store at `pos`. */
  method SpliceIn<T>(a: array<T>, pos: nat, n: nat, x: T)
    requires pos <= n < a.Length
    modifies a
    ensures a[..n + 1] == Splice(old(a[..n]), pos, x)
  {
    ghost var was := a[..n];
    ShiftIn(a, pos, n - pos, x);
    assert was[..pos] == old(a[..pos]) && was[pos..] == old(a[pos..n]);
  }

  /** What every layout offers: `m` is the map from bytes to children. */
  class N4 {
    const keys: array<Byte>
    const children: array<Ptr>
    var count: nat
    ghost var m: map<Byte, Ptr>

    ghost predicate Valid() reads this, keys, children {
      && keys.Length == 4 && children.Length == 4 && (keys as object) != (children as object)
      && count <= 4 && Ties(keys[..count], children[..count], m)
    }

    constructor ()
      ensures Valid() && m == map[] && count == 0 && fresh(keys) && fresh(children)
    {
      keys := new Byte[4];
      children := new Ptr[4](_ => 0);
      count := 0;
      m := map[];
    }

    method Find(b: Byte) returns (i: nat)
      requires Valid()
      ensures i <= count && (i == count <==> b !in m)
      ensures i < count ==> keys[i] == b && m[b] == children[i]
    {
      i := 0;
      while i < count
        invariant i <= count && forall j :: 0 <= j < i ==> keys[j] != b
      {
        if keys[i] == b {
          assert TieAt(keys[..count], children[..count], m, i);
          return;
        }
        i := i + 1;
      }
      assert b in m ==> Listed(keys[..count], b);
    }

    method GetChild(b: Byte) returns (p: Ptr)
      requires Valid()
      ensures p == if b in m then m[b] else 0
    {
      var i := Find(b);
      return if i < count then children[i] else 0;
    }

    method Change(b: Byte, p: Ptr)
      requires Valid() && b in m && p != 0
      modifies this`m, children
      ensures Valid() && m == old(m)[b := p]
    {
      var i := Find(b);
      TiesChange(keys[..count], children[..count], m, i, p);
      children[i] := p;
      m := m[b := p];
      assert children[..count] == old(children[..count])[i := p];
    }

    method Insert(b: Byte, p: Ptr)
      requires Valid() && b !in m && p != 0 && count < 4
      modifies this, keys, children
      ensures Valid() && m == old(m)[b := p] && count == old(count) + 1
    {
      var pos := 0;
      while pos < count && keys[pos] < b
        invariant pos <= count && forall i :: 0 <= i < pos ==> keys[i] < b
      {
        pos := pos + 1;
      }
      assert pos < count ==> TieAt(keys[..count], children[..count], m, pos);
      TiesInsert(keys[..count], children[..count], m, pos, b, p);
      SpliceIn(keys, pos, count, b);
      SpliceIn(children, pos, count, p);
      count := count + 1;
      m := m[b := p];
    }

    method Remove(b: Byte)
      requires Valid() && b in m
      modifies this, keys, children
      ensures Valid() && m == old(m) - {b} && count == old(count) - 1
    {
      var i := Find(b);
      TiesRemove(keys[..count], children[..count], m, i);
      ShiftOut(keys, i, count);
      ShiftOut(children, i, count);
      count := count - 1;
      m := m - {b};
    }

    /** `getSecondChild`: the first child under another byte. */
    method SecondChild(b: Byte) returns (p: Ptr, x: Byte)
      requires Valid() && b in m && |m| == 2
      ensures x in m && x != b && p == m[x] && m.Keys == {b, x}
    {
      TiesSize(keys[..count], children[..count], m);
      assert keys[..count][0] < keys[..count][1];
      var i := 0;
      while keys[i] == b
        invariant i < count && forall j :: 0 <= j < i ==> keys[j] == b
        decreases count - i
      {
        i := i + 1;
      }
      assert TieAt(keys[..count], children[..count], m, i);
      p, x := children[i], keys[i];
      PairKeys(m, b, x);
    }
  }

  lemma PairKeys(m: map<Byte, Ptr>, b: Byte, x: Byte)
    requires b in m && x in m && b != x && |m| == 2
    ensures m.Keys == {b, x}
  {
    var rest := m.Keys - {b, x};
    assert |m.Keys| == |m|;
    assert |m.Keys| == |rest| + |{b, x}|;
  }

  // ----- sixteen slots, keys with the sign bit flipped ----------------------------------------

  function Flip(b: Byte): Byte {
    if b < 128 then b + 128 else b - 128
  }

  /** The byte as a signed number, as the vector comparison reads it. */
  function Signed(b: Byte): int {
    if b >= 128 then b - 256 else b
  }

  /** Flipping turns the signed order into the unsigned one. */
  lemma FlipOrder(a: Byte, b: Byte)
    ensures Signed(Flip(a)) < Signed(Flip(b)) <==> a < b
    ensures Flip(Flip(a)) == a
  {
  }

  function Flipped(ks: seq<Byte>): (r: seq<Byte>)
    ensures |r| == |ks| && forall i :: 0 <= i < |ks| ==> r[i] == Flip(ks[i])
  {
    seq(|ks|, i requires 0 <= i < |ks| => Flip(ks[i]))
  }

  class N16 {
    const keys: array<Byte>
    const children: array<Ptr>
    var count: nat
    ghost var m: map<Byte, Ptr>

    ghost predicate Valid() reads this, keys, children {
      && keys.Length == 16 && children.Length == 16 && (keys as object) != (children as object)
      && count <= 16 && Ties(Flipped(keys[..count]), children[..count], m)
    }

    constructor ()
      ensures Valid() && m == map[] && count == 0 && fresh(keys) && fresh(children)
    {
      keys := new Byte[16](_ => 0);
      children := new Ptr[16](_ => 0);
      count := 0;
      m := map[];
    }

    /** `getChildPos`: the lowest set bit of the mask of equal bytes below `count`. */
    method Find(b: Byte) returns (i: nat)
      requires Valid()
      ensures i <= count && (i == count <==> b !in m)
      ensures i < count ==> keys[i] == Flip(b) && m[b] == children[i]
    {
      i := 0;
      FlipOrder(b, b);
      while i < count
        invariant i <= count && forall j :: 0 <= j < i ==> keys[j] != Flip(b)
      {
        if keys[i] == Flip(b) {
          assert TieAt(Flipped(keys[..count]), children[..count], m, i);
          return;
        }
        i := i + 1;
      }
      if b in m {
        assert Listed(Flipped(keys[..count]), b);
        var j :| 0 <= j < count && Flipped(keys[..count])[j] == b;
        FlipOrder(keys[j], b);
        assert false;
      }
    }

    method GetChild(b: Byte) returns (p: Ptr)
      requires Valid()
      ensures p == if b in m then m[b] else 0
    {
      var i := Find(b);
      return if i < count then children[i] else 0;
    }

    method Change(b: Byte, p: Ptr)
      requires Valid() && b in m && p != 0
      modifies this`m, children
      ensures Valid() && m == old(m)[b := p]
    {
      var i := Find(b);
      FlipOrder(b, b);
      TiesChange(Flipped(keys[..count]), children[..count], m, i, p);
      children[i] := p;
      m := m[b := p];
      assert children[..count] == old(children[..count])[i := p];
    }

    method Insert(b: Byte, p: Ptr)
      requires Valid() && b !in m && p != 0 && count < 16
      modifies this, keys, children
      ensures Valid() && m == old(m)[b := p] && count == old(count) + 1
    {
      var pos := Place(b);
      ghost var ks := Flipped(keys[..count]);
      FlipOrder(b, b);
      TiesInsert(ks, children[..count], m, pos, b, p);
      SpliceIn(keys, pos, count, Flip(b));
      SpliceIn(children, pos, count, p);
      count := count + 1;
      m := m[b := p];
      assert Flipped(keys[..count]) == Splice(ks, pos, b);
    }

    /** The lowest set bit of the mask of greater bytes below `count`, by signed comparison. */
    method Place(b: Byte) returns (pos: nat)
      requires Valid() && b !in m
      ensures pos <= count && (forall i :: 0 <= i < pos ==> Flipped(keys[..count])[i] < b)
      ensures pos < count ==> b < Flipped(keys[..count])[pos]
    {
      ghost var ks := Flipped(keys[..count]);
      pos := 0;
      while pos < count && !(Signed(Flip(b)) < Signed(keys[pos]))
        invariant pos <= count && forall i :: 0 <= i < pos ==> ks[i] < b
      {
        FlipOrder(keys[pos], b);
        FlipOrder(b, Flip(keys[pos]));
        assert TieAt(ks, children[..count], m, pos);
        pos := pos + 1;
      }
      if pos < count {
        FlipOrder(keys[pos], b);
        FlipOrder(b, Flip(keys[pos]));
      }
    }

    method Remove(b: Byte)
      requires Valid() && b in m
      modifies this, keys, children
      ensures Valid() && m == old(m) - {b} && count == old(count) - 1
    {
      ghost var ks := Flipped(keys[..count]);
      var i := Find(b);
      FlipOrder(b, b);
      TiesRemove(ks, children[..count], m, i);
      ShiftOut(keys, i, count);
      ShiftOut(children, i, count);
      count := count - 1;
      m := m - {b};
      assert Flipped(keys[..count]) == Cut(ks, i);
    }
  }

  // ----- forty-eight slots behind an index ----------------------------------------------------

  const EMPTY_MARKER: Byte := 48

  /** `index` sends the bytes of `m`, and no others, to distinct slots; a slot nobody points to is null. */
  ghost predicate Indexed(index: seq<Byte>, slots: seq<Ptr>, m: map<Byte, Ptr>) {
    && |index| == 256 && |slots| == 48
    && (forall b {:trigger index[b]} :: 0 <= b < 256 ==>
          if b in m then index[b] < 48 && slots[index[b]] == m[b] && m[b] != 0 else index[b] == EMPTY_MARKER)
    && (forall a: Byte, b: Byte :: a in m && b in m && a != b ==> index[a] != index[b])
    && (forall j {:trigger slots[j]} :: 0 <= j < 48 && slots[j] != 0 ==> Pointed(index, m, j))
  }

  ghost predicate Pointed(index: seq<Byte>, m: map<Byte, Ptr>, j: int)
    requires |index| == 256
  {
    exists b: Byte :: b in m && index[b] == j
  }

  lemma {:induction false} ImageSize(s: set<Byte>, index: seq<Byte>)
    requires |index| == 256
    ensures |set b | b in s :: index[b]| <= |s|
  {
    if s != {} {
      var x :| x in s;
      var rest := s - {x};
      ImageSize(rest, index);
      assert (set b | b in s :: index[b]) == (set b | b in rest :: index[b]) + {index[x]};
    }
  }

  function UpTo(n: nat): (s: set<int>)
    ensures |s| == n && forall j :: j in s <==> 0 <= j < n
  {
    if n == 0 then {} else UpTo(n - 1) + {n - 1}
  }

  lemma SetLess(a: set<int>, b: set<int>)
    requires a <= b
    ensures |a| <= |b|
  {
    assert b == a + (b - a);
  }

  /** With fewer than 48 children some slot is null. */
  lemma FreeSlot(index: seq<Byte>, slots: seq<Ptr>, m: map<Byte, Ptr>)
    requires Indexed(index, slots, m) && |m| < 48
    ensures exists j :: 0 <= j < 48 && slots[j] == 0
  {
    var image: set<int> := set b | b in m.Keys :: index[b];
    ImageSize(m.Keys, index);
    assert |image| <= |m.Keys| == |m|;
    if UpTo(48) <= image { SetLess(UpTo(48), image); }
    var j :| j in UpTo(48) && j !in image;
    assert !Pointed(index, m, j);
    assert slots[j] == 0;
  }

  class N48 {
    const childIndex: array<Byte>
    const children: array<Ptr>
    var count: nat
    ghost var m: map<Byte, Ptr>

    ghost predicate Valid() reads this, childIndex, children {
      && childIndex.Length == 256 && children.Length == 48 && (childIndex as object) != (children as object)
      && count == |m| <= 48 && Indexed(childIndex[..], children[..], m)
    }

    constructor ()
      ensures Valid() && m == map[] && count == 0 && fresh(childIndex) && fresh(children)
    {
      childIndex := new Byte[256](_ => EMPTY_MARKER);
      children := new Ptr[48](_ => 0);
      count := 0;
      m := map[];
    }

    method GetChild(b: Byte) returns (p: Ptr)
      requires Valid()
      ensures p == if b in m then m[b] else 0
    {
      assert childIndex[..][b] == childIndex[b];
      return if childIndex[b] == EMPTY_MARKER then 0 else children[childIndex[b]];
    }

    method Change(b: Byte, p: Ptr)
      requires Valid() && b in m && p != 0
      modifies this`m, children
      ensures Valid() && m == old(m)[b := p]
    {
      assert childIndex[..][b] == childIndex[b];
      IndexedChange(childIndex[..], children[..], m, b, p);
      children[childIndex[b]] := p;
      m := m[b := p];
      assert children[..] == old(children[..])[childIndex[b] := p];
    }

    /** The slot after the last insert if it is free, else the first free one. */
    method FindSlot() returns (pos: nat)
      requires Valid() && count < 48
      ensures pos < 48 && children[pos] == 0
    {
      pos := count;
      if children[pos] != 0 {
        FreeSlot(childIndex[..], children[..], m);
        ghost var free :| 0 <= free < 48 && children[..][free] == 0;
        pos := 0;
        while children[pos] != 0
          invariant pos <= free
          decreases 48 - pos
        {
          pos := pos + 1;
        }
      }
    }

    method Insert(b: Byte, p: Ptr)
      requires Valid() && b !in m && p != 0 && count < 48
      modifies this, childIndex, children
      ensures Valid() && m == old(m)[b := p] && count == old(count) + 1
    {
      var pos := FindSlot();
      assert children[..][pos] == 0;
      IndexedInsert(childIndex[..], children[..], m, b, p, pos);
      children[pos] := p;
      childIndex[b] := pos;
      count := count + 1;
      m := m[b := p];
      assert children[..] == old(children[..])[pos := p] && childIndex[..] == old(childIndex[..])[b := pos];
    }

    method Remove(b: Byte)
      requires Valid() && b in m
      modifies this, childIndex, children
      ensures Valid() && m == old(m) - {b} && count == old(count) - 1
    {
      assert childIndex[..][b] == childIndex[b];
      IndexedRemove(childIndex[..], children[..], m, b);
      children[childIndex[b]] := 0;
      childIndex[b] := EMPTY_MARKER;
      count := count - 1;
      ghost var was := m;
      m := m - {b};
      assert was == m[b := was[b]];
      assert childIndex[..] == old(childIndex[..])[b := EMPTY_MARKER];
      assert children[..] == old(children[..])[old(childIndex[b]) := 0];
    }
  }

  lemma IndexedChange(index: seq<Byte>, slots: seq<Ptr>, m: map<Byte, Ptr>, b: Byte, p: Ptr)
    requires Indexed(index, slots, m) && b in m && p != 0
    ensures index[b] < 48 && Indexed(index, slots[index[b] := p], m[b := p])
  {
    var slots', m' := slots[index[b] := p], m[b := p];
    forall j | 0 <= j < 48 && slots'[j] != 0 ensures Pointed(index, m', j) {
      if j == index[b] {
        assert b in m' && index[b] == j;
      } else {
        assert Pointed(index, m, j);
        var x: Byte :| x in m && index[x] == j;
        assert x in m' && index[x] == j;
      }
    }
  }

  lemma IndexedInsert(index: seq<Byte>, slots: seq<Ptr>, m: map<Byte, Ptr>, b: Byte, p: Ptr, pos: Byte)
    requires Indexed(index, slots, m) && b !in m && p != 0 && pos < 48 && slots[pos] == 0
    ensures Indexed(index[b := pos], slots[pos := p], m[b := p])
  {
    var index', slots', m' := index[b := pos], slots[pos := p], m[b := p];
    forall j | 0 <= j < 48 && slots'[j] != 0 ensures Pointed(index', m', j) {
      if j == pos {
        assert b in m' && index'[b] == j;
      } else {
        assert slots[j] != 0 && Pointed(index, m, j);
        var x: Byte :| x in m && index[x] == j;
        assert x in m' && index'[x] == j;
      }
    }
    forall a: Byte, c: Byte | a in m' && c in m' && a != c ensures index'[a] != index'[c] {
      assert a != b ==> slots[index[a]] != 0;
      assert c != b ==> slots[index[c]] != 0;
    }
  }

  lemma IndexedRemove(index: seq<Byte>, slots: seq<Ptr>, m: map<Byte, Ptr>, b: Byte)
    requires Indexed(index, slots, m) && b in m
    ensures index[b] < 48 && Indexed(index[b := EMPTY_MARKER], slots[index[b] := 0], m - {b})
  {
    var index', slots', m' := index[b := EMPTY_MARKER], slots[index[b] := 0], m - {b};
    forall j | 0 <= j < 48 && slots'[j] != 0 ensures Pointed(index', m', j) {
      assert slots[j] != 0 && Pointed(index, m, j);
      var x: Byte :| x in m && index[x] == j;
      assert x in m' && index'[x] == j;
    }
  }

  // ----- one slot per byte --------------------------------------------------------------------

  class N256 {
    const children: array<Ptr>
    var count: nat
    ghost var m: map<Byte, Ptr>

    /** The count is an eight-bit field and wraps at 256. */
    ghost predicate Valid() reads this, children {
      && children.Length == 256 && count == |m| % 256
      && (forall b {:trigger children[b]} :: 0 <= b < 256 ==> children[b] == if b in m then m[b] else 0)
      && (forall b :: b in m ==> m[b] != 0)
    }

    constructor ()
      ensures Valid() && m == map[] && fresh(children)
    {
      children := new Ptr[256](_ => 0);
      count := 0;
      m := map[];
    }

    method GetChild(b: Byte) returns (p: Ptr)
      requires Valid()
      ensures p == if b in m then m[b] else 0
    {
      return children[b];
    }

    method Change(b: Byte, p: Ptr)
      requires Valid() && b in m && p != 0
      modifies this`m, children
      ensures Valid() && m == old(m)[b := p]
    {
      children[b] := p;
      ghost var was := m;
      m := m[b := p];
      assert m.Keys == was.Keys && |m.Keys| == |m| && |was.Keys| == |was|;
    }

    method Insert(b: Byte, p: Ptr)
      requires Valid() && b !in m && p != 0
      modifies this, children
      ensures Valid() && m == old(m)[b := p]
    {
      children[b] := p;
      count := (count + 1) % 256;
      m := m[b := p];
    }

    method Remove(b: Byte)
      requires Valid() && b in m
      modifies this, children
      ensures Valid() && m == old(m) - {b}
    {
      children[b] := 0;
      count := (count + 255) % 256;
      ghost var was := m;
      m := m - {b};
      assert was == m[b := was[b]];
    }
  }

  // ----- from one layout to the next ----------------------------------------------------------

  /** The children copied so far: those of the first `i` keys. */
  ghost predicate CopiedKeys(ks: seq<Byte>, m: map<Byte, Ptr>, i: nat, part: map<Byte, Ptr>) {
    && i <= |ks| && |part| == i
    && (forall j :: 0 <= j < i ==> ks[j] in part)
    && (forall b :: b in part ==> b in m && part[b] == m[b])
    && (forall j :: i <= j < |ks| ==> ks[j] !in part)
  }

  lemma CopyKey(ks: seq<Byte>, cs: seq<Ptr>, m: map<Byte, Ptr>, i: nat, part: map<Byte, Ptr>)
    requires Ties(ks, cs, m) && i < |ks| && CopiedKeys(ks, m, i, part)
    ensures ks[i] !in part && cs[i] != 0 && CopiedKeys(ks, m, i + 1, part[ks[i] := cs[i]])
  {
    assert TieAt(ks, cs, m, i);
  }

  lemma CopyDone(ks: seq<Byte>, cs: seq<Ptr>, m: map<Byte, Ptr>, part: map<Byte, Ptr>)
    requires Ties(ks, cs, m) && CopiedKeys(ks, m, |ks|, part)
    ensures part == m
  {
    forall b | b in m ensures b in part { assert Listed(ks, b); }
  }

  /** `insertGrow` of a full four-slot node. */
  method Grow4(n: N4, b: Byte, p: Ptr) returns (r: N16)
    requires n.Valid() && b !in n.m && p != 0
    ensures r.Valid() && fresh(r) && r.m == n.m[b := p]
  {
    r := new N16();
    var i := 0;
    while i < n.count
      invariant fresh(r) && fresh(r.keys) && fresh(r.children)
      invariant n.Valid() && r.Valid() && i <= n.count && r.count == i
      invariant CopiedKeys(n.keys[..n.count], n.m, i, r.m)
    {
      CopyKey(n.keys[..n.count], n.children[..n.count], n.m, i, r.m);
      r.Insert(n.keys[i], n.children[i]);
      i := i + 1;
    }
    CopyDone(n.keys[..n.count], n.children[..n.count], n.m, r.m);
    r.Insert(b, p);
  }

  /** `insertGrow` of a full sixteen-slot node. */
  method Grow16(n: N16, b: Byte, p: Ptr) returns (r: N48)
    requires n.Valid() && b !in n.m && p != 0
    ensures r.Valid() && fresh(r) && r.m == n.m[b := p]
  {
    r := new N48();
    ghost var ks := Flipped(n.keys[..n.count]);
    var i := 0;
    while i < n.count
      invariant fresh(r) && fresh(r.childIndex) && fresh(r.children)
      invariant n.Valid() && r.Valid() && i <= n.count && r.count == i
      invariant CopiedKeys(ks, n.m, i, r.m)
    {
      CopyKey(ks, n.children[..n.count], n.m, i, r.m);
      r.Insert(Flip(n.keys[i]), n.children[i]);
      i := i + 1;
    }
    CopyDone(ks, n.children[..n.count], n.m, r.m);
    r.Insert(b, p);
  }

  /** `removeAndShrink` of a sixteen-slot node with three children. */
  method Shrink16(n: N16, b: Byte) returns (r: N4)
    requires n.Valid() && b in n.m && n.count == Least(Kind.N16)
    ensures r.Valid() && fresh(r) && r.m == n.m - {b}
  {
    r := new N4();
    ghost var ks := Flipped(n.keys[..n.count]);
    var i := 0;
    while i < n.count
      invariant fresh(r) && fresh(r.keys) && fresh(r.children)
      invariant n.Valid() && r.Valid() && i <= n.count && r.count == i
      invariant CopiedKeys(ks, n.m, i, r.m)
    {
      CopyKey(ks, n.children[..n.count], n.m, i, r.m);
      r.Insert(Flip(n.keys[i]), n.children[i]);
      i := i + 1;
    }
    CopyDone(ks, n.children[..n.count], n.m, r.m);
    r.Remove(b);
  }

  /** The children under bytes below `i`. */
  function Under(m: map<Byte, Ptr>, i: int): map<Byte, Ptr> {
    map b | b in m && b < i :: m[b]
  }

  lemma UnderNext(m: map<Byte, Ptr>, i: Byte)
    ensures i !in Under(m, i)
    ensures Under(m, i + 1) == if i in m then Under(m, i)[i := m[i]] else Under(m, i)
    ensures |Under(m, i + 1)| <= |m|
  {
    KeysLess(Under(m, i + 1), m);
  }

  lemma KeysLess(a: map<Byte, Ptr>, b: map<Byte, Ptr>)
    requires a.Keys <= b.Keys
    ensures |a| <= |b|
  {
    assert b.Keys == a.Keys + (b.Keys - a.Keys);
    assert |a.Keys| == |a| && |b.Keys| == |b|;
  }

  lemma UnderAll(m: map<Byte, Ptr>)
    ensures Under(m, 0) == map[] && Under(m, 256) == m
  {
  }

  /** `insertGrow` of a full forty-eight-slot node. */
  method Grow48(n: N48, b: Byte, p: Ptr) returns (r: N256)
    requires n.Valid() && b !in n.m && p != 0
    ensures r.Valid() && fresh(r) && r.m == n.m[b := p]
  {
    r := new N256();
    UnderAll(n.m);
    var i := 0;
    while i < 256
      invariant fresh(r) && fresh(r.children)
      invariant n.Valid() && r.Valid() && 0 <= i <= 256 && r.m == Under(n.m, i)
    {
      UnderNext(n.m, i);
      assert n.childIndex[..][i] == n.childIndex[i];
      if n.childIndex[i] != EMPTY_MARKER {
        r.Insert(i, n.children[n.childIndex[i]]);
      }
      i := i + 1;
    }
    r.Insert(b, p);
  }

  /** `removeAndShrink` of a forty-eight-slot node with twelve children. */
  method Shrink48(n: N48, b: Byte) returns (r: N16)
    requires n.Valid() && b in n.m && n.count == Least(Kind.N48)
    ensures r.Valid() && fresh(r) && r.m == n.m - {b}
  {
    r := new N16();
    UnderAll(n.m);
    var i := 0;
    while i < 256
      invariant fresh(r) && fresh(r.keys) && fresh(r.children)
      invariant n.Valid() && r.Valid() && 0 <= i <= 256 && r.m == Under(n.m, i) && r.count == |r.m|
    {
      UnderNext(n.m, i);
      assert n.childIndex[..][i] == n.childIndex[i];
      if n.childIndex[i] != EMPTY_MARKER {
        r.Insert(i, n.children[n.childIndex[i]]);
      }
      i := i + 1;
    }
    r.Remove(b);
  }

  /** `removeAndShrink` of a 256-slot node with 37 children. */
  method Shrink256(n: N256, b: Byte) returns (r: N48)
    requires n.Valid() && b in n.m && |n.m| == Least(Kind.N256)
    ensures r.Valid() && fresh(r) && r.m == n.m - {b}
  {
    r := new N48();
    UnderAll(n.m);
    var i := 0;
    while i < 256
      invariant fresh(r) && fresh(r.childIndex) && fresh(r.children)
      invariant n.Valid() && r.Valid() && 0 <= i <= 256 && r.m == Under(n.m, i)
    {
      UnderNext(n.m, i);
      if n.children[i] != 0 {
        r.Insert(i, n.children[i]);
      }
      i := i + 1;
    }
    r.Remove(b);
  }
}
