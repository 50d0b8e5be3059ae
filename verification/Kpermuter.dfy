/** masstree's packed permutation: a word whose lowest nibble is the number of elements in use and whose
    other nibbles are the elements, those in use first, then the free ones. */
module Kpermuter {
  import opened Nibbles

  /** A word of `|x|` nibbles for `w` elements: 4, 8 or 16 nibbles in the source. */
  predicate Fits(x: Word, w: nat) {
    1 <= w < |x| <= 16
  }

  function Size(x: Word): nat
    requires x != []
  {
    x[0]
  }

  function Elems(x: Word, w: nat): seq<Nibble>
    requires Fits(x, w)
  {
    x[1..w + 1]
  }

  // ----- the word expressions -----------------------------------------------------------------

  function InitialValue(n: nat): Word
    requires 1 <= n <= 16
  {
    seq(n, q requires 0 <= q < n => if q == 0 then 0 else (n - 1 - q))
  }

  function FullValue(n: nat): Word
    requires 1 <= n <= 16
  {
    seq(n, q requires 0 <= q < n => if q == 0 then 0 else (q - 1))
  }

  function MakeEmpty(n: nat, w: nat): Word
    requires 1 <= w < n <= 16
  {
    And(Shr(InitialValue(n), n - 1 - w), Not(Low(n, 1)))
  }

  function MakeSorted(n: nat, w: nat, size: nat): Word
    requires 1 <= w < n <= 16 && size <= w
  {
    var mask := Low(n, if size == w then n else size + 1);
    Or(Or(Shl(MakeEmpty(n, w), size), And(FullValue(n), mask)), Single(n, size, 0))
  }

  function InsertFromBack(x: Word, w: nat, i: nat): Word
    requires Fits(x, w) && i < w && Size(x) < w
  {
    var n := |x|;
    Or(Or(And(Inc(x), Low(n, i + 1)), Single(n, x[w], i + 1)), And(Shl(x, 1), Not(Low(n, i + 2))))
  }

  function InsertSelected(x: Word, w: nat, di: nat, si: nat): Word
    requires Fits(x, w) && di < w && si < w && Size(x) < w
  {
    var n := |x|;
    var mask := Low(n, si + 2);
    Or(Or(Or(And(Inc(x), Low(n, di + 1)), Single(n, x[si + 1], di + 1)),
        And(And(Shl(x, 1), mask), Not(Low(n, di + 2)))),
       And(x, Not(mask)))
  }

  function Remove(x: Word, w: nat, i: nat): Word
    requires Fits(x, w) && i < Size(x) <= w
  {
    if Size(x) == i + 1 then Dec(x) else TurnDown(x, Dec(x), i + 1, Size(x))
  }

  /** The nibbles `from .. to` turned down by one, the others taken from `y`. */
  function TurnDown(x: Word, y: Word, from: nat, to: nat): Word
    requires from < to < |x| == |y|
  {
    var mask := Span(|x|, from, to);
    Or(Or(And(y, Not(mask)), And(Shr(And(x, mask), 1), mask)), And(Shl(And(x, mask), to - from), mask))
  }

  function RemoveToBack(x: Word, w: nat, i: nat): Word
    requires Fits(x, w) && i < w && 0 < Size(x)
  {
    var mask := Not(Low(|x|, i + 1));
    var y := And(x, Low(|x|, w + 1));
    Or(Or(And(Dec(y), Not(mask)), And(Shr(y, 1), mask)), Shl(And(y, mask), w - i - 1))
  }

  function Rotate(x: Word, w: nat, i: nat, j: nat): Word
    requires Fits(x, w) && i <= j <= w
  {
    var mask := Low(|x|, if i == w then |x| else i + 1);
    var y := And(x, Low(|x|, w + 1));
    Or(Or(And(y, mask), And(Shr(y, j - i), Not(mask))), Shl(And(y, Not(mask)), w - j))
  }

  function Exchange(x: Word, w: nat, i: nat, j: nat): Word
    requires Fits(x, w) && i < w && j < w
  {
    var diff := Difference(x, i, j);
    Xor(x, Or(Shl(diff, i), Shl(diff, j)))
  }

  /** The bits in which elements `i` and `j` differ, in place of element 0: a mask of 240. */
  function Difference(x: Word, i: nat, j: nat): Word {
    And(Xor(Shr(x, i), Shr(x, j)), ShlMask(Low(|x|, 1), 1))
  }

  // ----- what they do to the list -------------------------------------------------------------

  lemma SizeSmall(x: Word, w: nat)
    requires Fits(x, w)
    ensures Size(x) < w ==> x[0] != 15
    ensures 0 < Size(x) ==> x[0] != 0
  {
  }

  lemma InsertFromBackAt(x: Word, w: nat, i: nat, q: nat)
    requires Fits(x, w) && i < w && Size(x) < w && q <= w
    ensures var r := InsertFromBack(x, w, i);
            && |r| == |x|
            && (q == 0 ==> r[q] == x[0] + 1)
            && (q > 0 ==> r[q] == if q <= i then x[q] else if q == i + 1 then x[w] else x[q - 1])
  {
    SizeSmall(x, w);
    var n := |x|;
    OrOne(And(Inc(x), Low(n, i + 1)), Single(n, x[w], i + 1), And(Shl(x, 1), Not(Low(n, i + 2))), q);
  }

  /** Allocates the last free element and puts it at position `i`. */
  lemma InsertFromBackOk(x: Word, w: nat, i: nat)
    requires Fits(x, w) && i < w && Size(x) < w
    ensures var r, l := InsertFromBack(x, w, i), Elems(x, w);
            && |r| == |x| && Size(r) == Size(x) + 1
            && Elems(r, w) == l[..i] + [l[w - 1]] + l[i..w - 1]
  {
    InsertFromBackAt(x, w, i, 0);
    var r, l := Elems(InsertFromBack(x, w, i), w), Elems(x, w);
    InsertFromBackAt(x, w, i, i + 1);
    forall e | 0 <= e < i ensures r[e] == l[e] { InsertFromBackAt(x, w, i, e + 1); }
    forall e | i < e < w ensures r[e] == l[e - 1] { InsertFromBackAt(x, w, i, e + 1); }
    Inserted(l, r, i);
  }

  lemma Inserted<T>(l: seq<T>, r: seq<T>, i: nat)
    requires |r| == |l| && i < |l| && r[i] == l[|l| - 1]
    requires (forall e :: 0 <= e < i ==> r[e] == l[e]) && (forall e :: i < e < |l| ==> r[e] == l[e - 1])
    ensures r == l[..i] + [l[|l| - 1]] + l[i..|l| - 1]
  {
  }

  /** Takes the free element at position `si` and puts it at position `di`. */
  function Moved(l: seq<Nibble>, di: nat, si: nat): seq<Nibble>
    requires di < |l| && si < |l|
  {
    if di <= si then l[..di] + [l[si]] + l[di..si] + l[si + 1..]
    else l[..si] + l[si + 1..di + 1] + [l[si]] + l[di + 1..]
  }

  lemma MovedUp(l: seq<Nibble>, r: seq<Nibble>, di: nat, si: nat)
    requires |r| == |l| && di <= si < |l| && r[di] == l[si]
    requires (forall e :: 0 <= e < di ==> r[e] == l[e]) && (forall e :: si < e < |l| ==> r[e] == l[e])
    requires forall e :: di < e <= si ==> r[e] == l[e - 1]
    ensures r == Moved(l, di, si)
  {
  }

  lemma InsertSelectedAt(x: Word, w: nat, di: nat, si: nat, q: nat)
    requires Fits(x, w) && di < w && si < w && Size(x) < w && q <= w
    ensures var r := InsertSelected(x, w, di, si);
            && |r| == |x|
            && (q == 0 ==> r[q] == x[0] + 1)
            && (0 < q && di <= si ==> SelectedAt(x, r, di, si, q))
            && (0 < q <= di ==> r[q] == x[q])
  {
    var n, mask := |x|, Low(|x|, si + 2);
    SizeSmall(x, w);
    var y := Inc(x);
    var a, b := And(y, Low(n, di + 1)), Single(n, x[si + 1], di + 1);
    var c, d := And(And(Shl(x, 1), mask), Not(Low(n, di + 2))), And(x, Not(mask));
    FourParts(x, y, di, si, q);
    OrFour(a, b, c, d, q);
  }

  /** What the four parts of insert_selected hold at place `q`. */
  lemma FourParts(x: Word, y: Word, di: nat, si: nat, q: nat)
    requires |y| == |x| && di < |x| - 1 && si < |x| - 1 && q < |x|
    ensures var n, mask := |x|, Low(|x|, si + 2);
            && And(y, Low(n, di + 1))[q] == (if q <= di then y[q] else 0)
            && Single(n, x[si + 1], di + 1)[q] == (if q == di + 1 then x[si + 1] else 0)
            && And(And(Shl(x, 1), mask), Not(Low(n, di + 2)))[q] == (if di + 1 < q <= si + 1 then x[q - 1] else 0)
            && And(x, Not(mask))[q] == (if si + 1 < q then x[q] else 0)
  {
    var up := And(Shl(x, 1), Low(|x|, si + 2));
    assert up[q] == if 0 < q <= si + 1 then x[q - 1] else 0;
  }

  /** Where at most one of four words is not zero, or the last two agree, their union is that. */
  lemma OrFour(a: Word, b: Word, c: Word, d: Word, q: nat)
    requires |a| == |b| == |c| == |d| && q < |a|
    ensures var r := Or(Or(Or(a, b), c), d);
            && |r| == |a|
            && (b[q] == 0 && c[q] == 0 && (d[q] == 0 || d[q] == a[q]) ==> r[q] == a[q])
            && (a[q] == 0 && c[q] == 0 && d[q] == 0 ==> r[q] == b[q])
            && (a[q] == 0 && b[q] == 0 && d[q] == 0 ==> r[q] == c[q])
            && (a[q] == 0 && b[q] == 0 && c[q] == 0 ==> r[q] == d[q])
  {
    OrOne(a, b, c, q);
    OrTwo(Or(Or(a, b), c), d, q);
  }

  lemma OrTwo(a: Word, b: Word, q: nat)
    requires |a| == |b| && q < |a|
    ensures b[q] == 0 || b[q] == a[q] ==> Or(a, b)[q] == a[q]
    ensures a[q] == 0 ==> Or(a, b)[q] == b[q]
  {
  }

  /** Where at most one of three words is not zero, their union is that one. */
  lemma OrOne(a: Word, b: Word, c: Word, q: nat)
    requires |a| == |b| == |c| && q < |a|
    ensures var r := Or(Or(a, b), c)[q];
            && (b[q] == 0 && c[q] == 0 ==> r == a[q]) && (a[q] == 0 && c[q] == 0 ==> r == b[q])
            && (a[q] == 0 && b[q] == 0 ==> r == c[q]) && (c[q] == 0 && b[q] == a[q] ==> r == a[q])
            && (a[q] == 0 && b[q] == c[q] ==> r == c[q]) && (b[q] == 0 && a[q] == c[q] ==> r == c[q])
  {
  }

  ghost predicate Distinct(l: seq<Nibble>) {
    forall i, j :: 0 <= i < j < |l| ==> l[i] != l[j]
  }

  /** insert_selected moves the element if and only if the target does not lie above the source; the
      documented precondition would also admit a target between them and the end. */
  lemma InsertSelectedOk(x: Word, w: nat, di: nat, si: nat)
    requires Fits(x, w) && di < w && Size(x) <= si < w && Distinct(Elems(x, w))
    ensures var r := InsertSelected(x, w, di, si);
            && |r| == |x| && Size(r) == Size(x) + 1
            && (Elems(r, w) == Moved(Elems(x, w), di, si) <==> di <= si)
  {
    InsertSelectedAt(x, w, di, si, 0);
    if di <= si {
      InsertSelectedUp(x, w, di, si);
    } else {
      InsertSelectedDown(x, w, di, si);
      MovedAway(Elems(x, w), di, si);
    }
  }

  /** With its target above, the element stays where it is. */
  lemma InsertSelectedDown(x: Word, w: nat, di: nat, si: nat)
    requires Fits(x, w) && si < di < w && Size(x) < w
    ensures |InsertSelected(x, w, di, si)| == |x|
    ensures Elems(InsertSelected(x, w, di, si), w)[si] == Elems(x, w)[si]
  {
    InsertSelectedAt(x, w, di, si, si + 1);
    SameElem(x, InsertSelected(x, w, di, si), w, si);
  }

  lemma SameElem(x: Word, r: Word, w: nat, e: nat)
    requires Fits(x, w) && |r| == |x| && e < w && r[e + 1] == x[e + 1]
    ensures Elems(r, w)[e] == Elems(x, w)[e]
  {
  }

  lemma MovedAway(l: seq<Nibble>, di: nat, si: nat)
    requires si < di < |l| && Distinct(l)
    ensures Moved(l, di, si)[si] != l[si]
  {
    assert Moved(l, di, si)[si] == l[si + 1];
  }

  predicate SelectedAt(x: Word, r: Word, di: nat, si: nat, q: nat)
    requires 0 < q < |x| == |r| && di <= si < |x| - 1
  {
    r[q] == if q <= di || si + 1 < q then x[q] else if q == di + 1 then x[si + 1] else x[q - 1]
  }

  lemma InsertSelectedUp(x: Word, w: nat, di: nat, si: nat)
    requires Fits(x, w) && di <= si < w && Size(x) < w
    ensures |InsertSelected(x, w, di, si)| == |x|
    ensures Elems(InsertSelected(x, w, di, si), w) == Moved(Elems(x, w), di, si)
  {
    var r := InsertSelected(x, w, di, si);
    forall q | 0 < q <= w ensures |r| == |x| && SelectedAt(x, r, di, si, q) {
      InsertSelectedAt(x, w, di, si, q);
    }
    SelectedList(x, r, w, di, si);
  }

  lemma SelectedList(x: Word, r: Word, w: nat, di: nat, si: nat)
    requires Fits(x, w) && |r| == |x| && di <= si < w && forall q :: 0 < q <= w ==> SelectedAt(x, r, di, si, q)
    ensures Elems(r, w) == Moved(Elems(x, w), di, si)
  {
    var m, l := Elems(r, w), Elems(x, w);
    forall e | 0 <= e < w
      ensures e < di || si < e ==> m[e] == l[e]
      ensures e == di ==> m[e] == l[si]
      ensures di < e <= si ==> m[e] == l[e - 1]
    {
      assert SelectedAt(x, r, di, si, e + 1);
    }
    MovedUp(l, m, di, si);
  }

  lemma RemoveAt(x: Word, w: nat, i: nat, q: nat)
    requires Fits(x, w) && i < Size(x) <= w && q <= w
    ensures var r, s := Remove(x, w, i), Size(x);
            && |r| == |x|
            && (q == 0 ==> r[q] == x[0] - 1)
            && (q > 0 ==> FreedAt(x, r, i, s, q))
  {
    SizeSmall(x, w);
    if Size(x) == i + 1 {
      LastAt(x, i, q);
    } else {
      RemoveTurn(x, Dec(x), i, Size(x), q);
    }
  }

  /** Removing the last element in use only takes one off the size. */
  lemma LastAt(x: Word, i: nat, q: nat)
    requires i + 1 < |x| && q < |x| && 0 < x[0]
    ensures var r := Dec(x);
            && (q == 0 ==> r[q] == x[0] - 1)
            && (q > 0 ==> FreedAt(x, r, i, i + 1, q))
  {
  }

  /** The nibbles `from .. to` of a word. */
  function Span(n: nat, from: nat, to: nat): (m: Mask)
    requires from <= to < n
    ensures |m| == n && forall k :: 0 <= k < n ==> m[k] == (from <= k <= to)
  {
    ShlMask(Low(n, to - from + 1), from)
  }

  lemma StaysOutside(y: Word, from: nat, to: nat, q: nat)
    requires from <= to < |y| && q < |y|
    ensures And(y, Not(Span(|y|, from, to)))[q] == if from <= q <= to then 0 else y[q]
  {
  }

  lemma MovesDown(x: Word, from: nat, to: nat, q: nat)
    requires from <= to < |x| && q < |x|
    ensures var m := Span(|x|, from, to);
            And(Shr(And(x, m), 1), m)[q] == if from <= q < to then x[q + 1] else 0
  {
    var inside := And(x, Span(|x|, from, to));
    assert q + 1 < |x| ==> inside[q + 1] == if from <= q + 1 <= to then x[q + 1] else 0;
  }

  lemma MovesUp(x: Word, from: nat, to: nat, q: nat)
    requires from <= to < |x| && q < |x|
    ensures var m := Span(|x|, from, to);
            And(Shl(And(x, m), to - from), m)[q] == if q == to then x[from] else 0
  {
    var inside, k := And(x, Span(|x|, from, to)), to - from;
    assert k <= q ==> inside[q - k] == if from <= q - k <= to then x[q - k] else 0;
  }

  /** The three parts of a removal: what stays, what moves down, and the removed element. */
  lemma RemoveTurn(x: Word, y: Word, i: nat, s: nat, q: nat)
    requires i + 1 < s < |x| == |y| && q < |x| && (0 < q ==> y[q] == x[q])
    ensures var r := TurnDown(x, y, i + 1, s);
            |r| == |x| && if q == 0 then r[q] == y[q] else FreedAt(x, r, i, s, q)
  {
    var from := i + 1;
    var m := Span(|x|, from, s);
    StaysOutside(y, from, s, q);
    MovesDown(x, from, s, q);
    MovesUp(x, from, s, q);
    OrOne(And(y, Not(m)), And(Shr(And(x, m), 1), m), And(Shl(And(x, m), s - from), m), q);
    var r := TurnDown(x, y, from, s);
    if q < from || s < q {
      assert r[q] == y[q];
    } else if q < s {
      assert r[q] == x[q + 1];
    } else {
      assert r[q] == x[from];
    }
  }

  /** The element at position `i` becomes the first free one. */
  lemma RemoveOk(x: Word, w: nat, i: nat)
    requires Fits(x, w) && i < Size(x) <= w
    ensures var r, l, s := Remove(x, w, i), Elems(x, w), Size(x);
            && |r| == |x| && Size(r) == s - 1
            && Elems(r, w) == l[..i] + l[i + 1..s] + [l[i]] + l[s..]
  {
    var r, s := Remove(x, w, i), Size(x);
    RemoveAt(x, w, i, 0);
    forall q | 0 < q <= w ensures FreedAt(x, r, i, s, q) {
      RemoveAt(x, w, i, q);
    }
    FreedList(x, r, w, i, s);
  }

  /** What a removal at `i` does to nibble `q` when `s` elements move. */
  predicate FreedAt(x: Word, r: Word, i: nat, s: nat, q: nat)
    requires 0 < q < |x| == |r| && i < s < |x|
  {
    r[q] == if q <= i || s < q then x[q] else if q < s then x[q + 1] else x[i + 1]
  }

  lemma FreedList(x: Word, r: Word, w: nat, i: nat, s: nat)
    requires Fits(x, w) && |r| == |x| && i < s <= w && forall q :: 0 < q <= w ==> FreedAt(x, r, i, s, q)
    ensures var l := Elems(x, w);
            Elems(r, w) == l[..i] + l[i + 1..s] + [l[i]] + l[s..]
  {
    var m, l := Elems(r, w), Elems(x, w);
    forall e | 0 <= e < w
      ensures e < i || s <= e ==> m[e] == l[e]
      ensures i <= e < s - 1 ==> m[e] == l[e + 1]
      ensures e == s - 1 ==> m[e] == l[i]
    {
      assert FreedAt(x, r, i, s, e + 1);
    }
    Freed(l, m, i, s);
  }

  lemma Freed<T>(l: seq<T>, r: seq<T>, i: nat, s: nat)
    requires |r| == |l| && i < s <= |l| && r[s - 1] == l[i]
    requires (forall e :: 0 <= e < i ==> r[e] == l[e]) && (forall e :: s <= e < |l| ==> r[e] == l[e])
    requires forall e :: i <= e < s - 1 ==> r[e] == l[e + 1]
    ensures r == l[..i] + l[i + 1..s] + [l[i]] + l[s..]
  {
  }

  lemma RemoveToBackAt(x: Word, w: nat, i: nat, q: nat)
    requires Fits(x, w) && i < w && 0 < Size(x) && q <= w
    ensures var r := RemoveToBack(x, w, i);
            && |r| == |x|
            && (q == 0 ==> r[q] == x[0] - 1)
            && (q > 0 ==> FreedAt(x, r, i, w, q))
  {
    var y := And(x, Low(|x|, w + 1));
    var mask := Not(Low(|x|, i + 1));
    SizeSmall(x, w);
    BackParts(y, Dec(y), w, i, q);
    OrOne(And(Dec(y), Not(mask)), And(Shr(y, 1), mask), Shl(And(y, mask), w - i - 1), q);
  }

  /** What the three parts of remove_to_back hold at place `q`. */
  lemma BackParts(y: Word, z: Word, w: nat, i: nat, q: nat)
    requires i < w < |y| == |z| && q <= w && forall j :: w < j < |y| ==> y[j] == 0
    ensures var mask := Not(Low(|y|, i + 1));
            && And(z, Not(mask))[q] == (if q <= i then z[q] else 0)
            && And(Shr(y, 1), mask)[q] == (if i < q < w then y[q + 1] else 0)
            && Shl(And(y, mask), w - i - 1)[q] == (if q == w then y[i + 1] else 0)
  {
    BackKeeps(z, i, q);
    BackDown(y, w, i, q);
    BackUp(y, w, i, q);
  }

  lemma BackKeeps(z: Word, i: nat, q: nat)
    requires i + 1 < |z| && q < |z|
    ensures And(z, Not(Not(Low(|z|, i + 1))))[q] == if q <= i then z[q] else 0
  {
  }

  lemma BackDown(y: Word, w: nat, i: nat, q: nat)
    requires i < w < |y| && q <= w && forall j :: w < j < |y| ==> y[j] == 0
    ensures And(Shr(y, 1), Not(Low(|y|, i + 1)))[q] == if i < q < w then y[q + 1] else 0
  {
    var down := Shr(y, 1);
    assert down[q] == if q < w then y[q + 1] else 0;
  }

  lemma BackUp(y: Word, w: nat, i: nat, q: nat)
    requires i < w < |y| && q <= w
    ensures Shl(And(y, Not(Low(|y|, i + 1))), w - i - 1)[q] == if q == w then y[i + 1] else 0
  {
    var high, k := And(y, Not(Low(|y|, i + 1))), w - i - 1;
    assert k <= q ==> high[q - k] == if q == w then y[i + 1] else 0;
  }

  /** The element at position `i` goes to the very end. */
  lemma RemoveToBackOk(x: Word, w: nat, i: nat)
    requires Fits(x, w) && i < w && 0 < Size(x)
    ensures var r, l := RemoveToBack(x, w, i), Elems(x, w);
            && |r| == |x| && Size(r) == Size(x) - 1
            && Elems(r, w) == l[..i] + l[i + 1..] + [l[i]]
  {
    var r, l := RemoveToBack(x, w, i), Elems(x, w);
    RemoveToBackAt(x, w, i, 0);
    forall q | 0 < q <= w ensures FreedAt(x, r, i, w, q) {
      RemoveToBackAt(x, w, i, q);
    }
    FreedList(x, r, w, i, w);
    assert l[i + 1..w] == l[i + 1..] && l[w..] == [];
  }

  lemma RotateAt(x: Word, w: nat, i: nat, j: nat, q: nat)
    requires Fits(x, w) && i <= j <= w && q <= w
    ensures var r := Rotate(x, w, i, j);
            |r| == |x| && TurnedAt(x, r, w, i, j, q)
  {
    var y := And(x, Low(|x|, w + 1));
    var mask := Low(|x|, if i == w then |x| else i + 1);
    OrOne(And(y, mask), And(Shr(y, j - i), Not(mask)), Shl(And(y, Not(mask)), w - j), q);
  }

  /** All elements from position `i` to the end of the word turn. */
  lemma RotateOk(x: Word, w: nat, i: nat, j: nat)
    requires Fits(x, w) && i <= j <= w
    ensures var r, l := Rotate(x, w, i, j), Elems(x, w);
            && |r| == |x| && Size(r) == Size(x)
            && Elems(r, w) == l[..i] + l[j..] + l[i..j]
  {
    var r := Rotate(x, w, i, j);
    RotateAt(x, w, i, j, 0);
    forall q | 0 < q <= w ensures TurnedAt(x, r, w, i, j, q) {
      RotateAt(x, w, i, j, q);
    }
    TurnedList(x, r, w, i, j);
  }

  predicate TurnedAt(x: Word, r: Word, w: nat, i: nat, j: nat, q: nat)
    requires Fits(x, w) && q <= w && |r| == |x| && i <= j <= w
  {
    r[q] == if q <= i then x[q] else if q + j - i <= w then x[q + j - i] else x[q + j - w]
  }

  lemma TurnedList(x: Word, r: Word, w: nat, i: nat, j: nat)
    requires Fits(x, w) && |r| == |x| && i <= j <= w && forall q :: 0 < q <= w ==> TurnedAt(x, r, w, i, j, q)
    ensures var l := Elems(x, w);
            Elems(r, w) == l[..i] + l[j..] + l[i..j]
  {
    var m, l := Elems(r, w), Elems(x, w);
    forall e | 0 <= e < w
      ensures e < i ==> m[e] == l[e]
      ensures i <= e < w - (j - i) ==> m[e] == l[e + (j - i)]
      ensures i <= e && w - (j - i) <= e ==> m[e] == l[e - (w - j)]
    {
      assert TurnedAt(x, r, w, i, j, e + 1);
    }
    Turned(l, m, i, j);
  }

  lemma Turned<T>(l: seq<T>, r: seq<T>, i: nat, j: nat)
    requires |r| == |l| && i <= j <= |l|
    requires forall e :: 0 <= e < i ==> r[e] == l[e]
    requires forall e :: i <= e < |l| - (j - i) ==> r[e] == l[e + (j - i)]
    requires forall e :: |l| - (j - i) <= e < |l| ==> r[e] == l[e - (|l| - j)]
    ensures r == l[..i] + l[j..] + l[i..j]
  {
  }

  /** What the documentation of rotate promises: the elements in use from `i` on turn by `j - i`. */
  ghost predicate Documented(l: seq<Nibble>, r: seq<Nibble>, size: nat, i: nat, j: nat)
    requires i <= j <= size <= |l| == |r|
  {
    forall k {:trigger r[k]} :: i <= k < size ==> r[k] == l[i + (k - i + j - i) % (size - i)]
  }

  /** `a` modulo `m`, for `a` below twice `m`. */
  function Wrap(a: nat, m: nat): (r: nat)
    requires a < 2 * m
    ensures r < m && (r == a || r == a - m)
  {
    if a < m then a else a - m
  }

  lemma WrapIsModulo(a: nat, m: nat)
    requires a < 2 * m
    ensures Wrap(a, m) == a % m
  {
    if a >= m {
      assert a == 1 * m + (a - m);
    }
  }

  /** As coded, rotate does what its documentation says if and only if there is nothing to turn or no
      element is free: it turns all positions up to the width, not those up to the size. */
  lemma RotateDocumented(x: Word, w: nat, i: nat, j: nat)
    requires Fits(x, w) && i <= j <= Size(x) <= w && Distinct(Elems(x, w))
    ensures Documented(Elems(x, w), Elems(Rotate(x, w, i, j), w), Size(x), i, j) <==> i == j || Size(x) == w
  {
    RotateOk(x, w, i, j);
    TurnDocumented(Elems(x, w), Size(x), i, j);
  }

  lemma TurnDocumented(l: seq<Nibble>, s: nat, i: nat, j: nat)
    requires i <= j <= s <= |l| && Distinct(l)
    ensures Documented(l, l[..i] + l[j..] + l[i..j], s, i, j) <==> i == j || s == |l|
  {
    var r := l[..i] + l[j..] + l[i..j];
    assert forall k {:trigger r[k]} :: i <= k < |l| ==>
        r[k] == if k + j - i < |l| then l[k + j - i] else l[k + j - |l|];
    forall k {:trigger r[k]} | i <= k < s ensures (k - i + j - i) % (s - i) == Wrap(k - i + j - i, s - i) {
      WrapIsModulo(k - i + j - i, s - i);
    }
    if i < j && s < |l| {
      var k := i + s - j;
      assert Wrap(k - i + j - i, s - i) == 0;
      assert r[k] == l[s] && l[s] != l[i];
    }
  }

  /** In an empty permuter of width 15, inserting the free element at position 0 at position 1 overlays the
      two elements: 14 | 13 is 15, and the permutation is lost. */
  lemma InsertSelectedExample()
    ensures var r := InsertSelected(MakeEmpty(16, 15), 15, 1, 0);
            |r| == 16 && Elems(r, 15)[1] == 15 && !Permutes(Elems(r, 15), 15)
  {
    var x := MakeEmpty(16, 15);
    MakeEmptyOk(16, 15);
    assert Elems(x, 15) == Fresh(15);
    assert x[1] == 14 && x[2] == 13;
    var a, b := And(Inc(x), Low(16, 2)), Single(16, x[1], 2);
    var c, d := And(And(Shl(x, 1), Low(16, 2)), Not(Low(16, 3))), And(x, Not(Low(16, 2)));
    assert a[2] == 0 && b[2] == 14 && c[2] == 0 && d[2] == 13;
    OrBitsExample();
    var r := InsertSelected(x, 15, 1, 0);
    assert r[2] == OrBits(OrBits(OrBits(0, 14), 0), 13);
    assert Elems(r, 15)[1] == r[2];
  }

  lemma OrBitsExample()
    ensures OrBits(OrBits(OrBits(0, 14), 0), 13) == 15
  {
  }

  lemma RotateExample()
    ensures var x := MakeSorted(16, 15, 3);
            Elems(Rotate(x, 15, 0, 1), 15)[2] == 14 && Size(x) == 3
  {
    var x := MakeSorted(16, 15, 3);
    MakeSortedOk(16, 15, 3);
    RotateOk(x, 15, 0, 1);
  }

  lemma ExchangeAt(x: Word, w: nat, i: nat, j: nat, q: nat)
    requires Fits(x, w) && i < w && j < w && q <= w
    ensures var r := Exchange(x, w, i, j);
            |r| == |x| && SwappedAt(x, r, i, j, q)
  {
    var d := XorBits(x[i + 1], x[j + 1]);
    DifferenceIs(x, i, j);
    Flips(x, Difference(x, i, j), i, j, d, q);
    XorTwice(x[i + 1], x[j + 1]);
  }

  lemma DifferenceIs(x: Word, i: nat, j: nat)
    requires 1 < |x| && i + 1 < |x| && j + 1 < |x|
    ensures var diff := Difference(x, i, j);
            && |diff| == |x| && diff[1] == XorBits(x[i + 1], x[j + 1])
            && forall q :: 0 <= q < |x| && q != 1 ==> diff[q] == 0
  {
  }

  lemma Flips(x: Word, diff: Word, i: nat, j: nat, d: Nibble, q: nat)
    requires 1 < |x| == |diff| && i + 1 < |x| && j + 1 < |x| && q < |x|
    requires diff[1] == d && forall k :: 0 <= k < |x| && k != 1 ==> diff[k] == 0
    ensures Xor(x, Or(Shl(diff, i), Shl(diff, j)))[q] == if q == i + 1 || q == j + 1 then XorBits(x[q], d) else x[q]
  {
    var a, b := Shl(diff, i), Shl(diff, j);
    assert a[q] == if q == i + 1 then d else 0;
    assert b[q] == if q == j + 1 then d else 0;
  }

  lemma ExchangeOk(x: Word, w: nat, i: nat, j: nat)
    requires Fits(x, w) && i < w && j < w
    ensures var r, l := Exchange(x, w, i, j), Elems(x, w);
            && |r| == |x| && Size(r) == Size(x)
            && Elems(r, w) == l[i := l[j]][j := l[i]]
  {
    var r := Exchange(x, w, i, j);
    ExchangeAt(x, w, i, j, 0);
    forall q | 0 <= q <= w ensures SwappedAt(x, r, i, j, q) {
      ExchangeAt(x, w, i, j, q);
    }
    SwappedList(x, r, w, i, j);
  }

  predicate SwappedAt(x: Word, r: Word, i: nat, j: nat, q: nat)
    requires q < |x| == |r| && i < |x| - 1 && j < |x| - 1
  {
    r[q] == if q == i + 1 then x[j + 1] else if q == j + 1 then x[i + 1] else x[q]
  }

  lemma SwappedList(x: Word, r: Word, w: nat, i: nat, j: nat)
    requires Fits(x, w) && |r| == |x| && i < w && j < w && forall q :: 0 <= q <= w ==> SwappedAt(x, r, i, j, q)
    ensures var l := Elems(x, w);
            Elems(r, w) == l[i := l[j]][j := l[i]]
  {
    var m, l := Elems(r, w), Elems(x, w);
    forall e | 0 <= e < w ensures m[e] == if e == j then l[i] else if e == i then l[j] else l[e] {
      assert SwappedAt(x, r, i, j, e + 1);
    }
  }

  // ----- permutations -------------------------------------------------------------------------

  /** The elements of an empty permuter, last to be allocated first. */
  function Fresh(w: nat): (l: seq<Nibble>)
    requires w <= 16
    ensures |l| == w && forall i :: 0 <= i < w ==> l[i] == w - 1 - i
  {
    seq(w, i requires 0 <= i < w => w - 1 - i)
  }

  /** The elements are a permutation of 0 .. w - 1. */
  ghost predicate Permutes(l: seq<Nibble>, w: nat) {
    |l| == w && Distinct(l) && forall e :: 0 <= e < w ==> l[e] < w
  }

  ghost predicate Valid(x: Word, w: nat) {
    Fits(x, w) && Size(x) <= w && Permutes(Elems(x, w), w)
  }

  lemma {:induction false} AtMostOnce(l: seq<Nibble>, v: Nibble)
    requires Distinct(l)
    ensures multiset(l)[v] <= 1
  {
    if l != [] {
      var init := l[..|l| - 1];
      AtMostOnce(init, v);
      assert l == init + [l[|l| - 1]];
      assert v == l[|l| - 1] ==> v !in init;
    }
  }

  lemma Twice(l: seq<Nibble>, i: nat, j: nat)
    requires i < j < |l| && l[i] == l[j]
    ensures multiset(l)[l[i]] >= 2
  {
    var a, b := l[..j], l[j..];
    assert l == a + b && a[i] == l[i] && b[0] == l[j];
    assert l[i] in multiset(a) && l[i] in multiset(b);
  }

  /** Changing the order keeps a permutation. */
  lemma Rearranged(l: seq<Nibble>, r: seq<Nibble>, w: nat)
    requires Permutes(l, w) && multiset(r) == multiset(l) && |r| == |l|
    ensures Permutes(r, w)
  {
    forall i, j | 0 <= i < j < |r| ensures r[i] != r[j] {
      AtMostOnce(l, r[i]);
      if r[i] == r[j] { Twice(r, i, j); }
    }
    forall e | 0 <= e < w ensures r[e] < w {
      assert r[e] in multiset(r);
    }
  }

  lemma InsertPermutes(l: seq<Nibble>, w: nat, i: nat)
    requires Permutes(l, w) && i < w
    ensures Permutes(l[..i] + [l[w - 1]] + l[i..w - 1], w)
  {
    assert l == l[..i] + l[i..w - 1] + [l[w - 1]];
    Rearranged(l, l[..i] + [l[w - 1]] + l[i..w - 1], w);
  }

  lemma MovePermutes(l: seq<Nibble>, w: nat, di: nat, si: nat)
    requires Permutes(l, w) && di <= si < w
    ensures Permutes(Moved(l, di, si), w)
  {
    assert l == l[..di] + l[di..si] + [l[si]] + l[si + 1..];
    Rearranged(l, Moved(l, di, si), w);
  }

  lemma FreePermutes(l: seq<Nibble>, w: nat, i: nat, s: nat)
    requires Permutes(l, w) && i < s <= w
    ensures Permutes(l[..i] + l[i + 1..s] + [l[i]] + l[s..], w)
  {
    assert l == l[..i] + [l[i]] + l[i + 1..s] + l[s..];
    Rearranged(l, l[..i] + l[i + 1..s] + [l[i]] + l[s..], w);
  }

  lemma BackPermutes(l: seq<Nibble>, w: nat, i: nat)
    requires Permutes(l, w) && i < w
    ensures Permutes(l[..i] + l[i + 1..] + [l[i]], w)
  {
    assert l == l[..i] + [l[i]] + l[i + 1..];
    Rearranged(l, l[..i] + l[i + 1..] + [l[i]], w);
  }

  lemma TurnPermutes(l: seq<Nibble>, w: nat, i: nat, j: nat)
    requires Permutes(l, w) && i <= j <= w
    ensures Permutes(l[..i] + l[j..] + l[i..j], w)
  {
    assert l == l[..i] + l[i..j] + l[j..];
    Rearranged(l, l[..i] + l[j..] + l[i..j], w);
  }

  lemma SwapPermutes(l: seq<Nibble>, w: nat, i: nat, j: nat)
    requires Permutes(l, w) && i < w && j < w
    ensures Permutes(l[i := l[j]][j := l[i]], w)
  {
    Rearranged(l, l[i := l[j]][j := l[i]], w);
  }

  lemma Constants()
    ensures InitialValue(4) == [0, 2, 1, 0] && FullValue(4) == [0, 0, 1, 2]
    ensures InitialValue(8) == [0, 6, 5, 4, 3, 2, 1, 0] && FullValue(8) == [0, 0, 1, 2, 3, 4, 5, 6]
    ensures InitialValue(16) == [0, 14, 13, 12, 11, 10, 9, 8, 7, 6, 5, 4, 3, 2, 1, 0]
    ensures FullValue(16) == [0, 0, 1, 2, 3, 4, 5, 6, 7, 8, 9, 10, 11, 12, 13, 14]
  {
  }

  lemma MakeEmptyOk(n: nat, w: nat)
    requires 1 <= w < n <= 16
    ensures var x := MakeEmpty(n, w);
            |x| == n && Size(x) == 0 && Elems(x, w) == Fresh(w) && Valid(x, w)
  {
    var x := MakeEmpty(n, w);
    forall q | 0 <= q <= w ensures x[q] == if q == 0 then 0 else (w - q) {
    }
    assert Elems(x, w) == Fresh(w);
  }

  lemma MakeSortedAt(n: nat, w: nat, size: nat, q: nat)
    requires 1 <= w < n <= 16 && size <= w && q <= w
    ensures var x := MakeSorted(n, w, size);
            && |x| == n
            && SortedAt(x, w, size, q)
  {
    var mask := Low(n, if size == w then n else size + 1);
    OrOne(Shl(MakeEmpty(n, w), size), And(FullValue(n), mask), Single(n, size, 0), q);
  }

  /** In use are 0 .. size - 1 in order; the others are free and are allocated in order. */
  lemma MakeSortedOk(n: nat, w: nat, size: nat)
    requires 1 <= w < n <= 16 && size <= w
    ensures var x := MakeSorted(n, w, size);
            && |x| == n && Size(x) == size
            && (forall e :: 0 <= e < size ==> Elems(x, w)[e] == e)
            && (forall e :: size <= e < w ==> Elems(x, w)[e] == w - 1 - e + size)
  {
    var x := MakeSorted(n, w, size);
    MakeSortedAt(n, w, size, 0);
    forall q | 0 <= q <= w ensures SortedAt(x, w, size, q) {
      MakeSortedAt(n, w, size, q);
    }
    SortedList(x, w, size);
  }

  predicate SortedAt(x: Word, w: nat, size: nat, q: nat)
    requires q < |x|
  {
    x[q] == if q == 0 then size else if q <= size then q - 1 else w - q + size
  }

  lemma SortedList(x: Word, w: nat, size: nat)
    requires Fits(x, w) && size <= w && forall q :: 0 <= q <= w ==> SortedAt(x, w, size, q)
    ensures forall e :: 0 <= e < size ==> Elems(x, w)[e] == e
    ensures forall e :: size <= e < w ==> Elems(x, w)[e] == w - 1 - e + size
  {
    var l := Elems(x, w);
    forall e | 0 <= e < w
      ensures e < size ==> l[e] == e
      ensures size <= e ==> l[e] == w - 1 - e + size
    {
      assert SortedAt(x, w, size, e + 1);
    }
  }

  // ----- exchanging values --------------------------------------------------------------------

  function Other(v: Nibble, a: Nibble, b: Nibble): Nibble {
    if v == a then b else if v == b then a else v
  }

  function ExchangeValues(x: Word, w: nat, a: Nibble, b: Nibble): (r: Word)
    requires Fits(x, w)
    ensures |r| == |x| && forall q :: 0 <= q < |x| ==> r[q] == if 1 <= q <= w then Other(x[q], a, b) else x[q]
  {
    seq(|x|, q requires 0 <= q < |x| => if 1 <= q <= w then Other(x[q], a, b) else x[q])
  }

  lemma ExchangeValuesOk(x: Word, w: nat, a: Nibble, b: Nibble)
    requires Fits(x, w) && Permutes(Elems(x, w), w) && a < w && b < w
    ensures var r := ExchangeValues(x, w, a, b);
            && Size(r) == Size(x) && Permutes(Elems(r, w), w)
            && (forall e :: 0 <= e < w ==> Elems(r, w)[e] == Other(Elems(x, w)[e], a, b))
  {
    var r, l := ExchangeValues(x, w, a, b), Elems(x, w);
    var m := Elems(r, w);
    forall e | 0 <= e < w ensures m[e] == Other(l[e], a, b) {
      assert r[e + 1] == Other(x[e + 1], a, b);
    }
  }

  /** What the flag bits of one element contribute: -(v == a | v == b) & (a ^ b). */
  function Flag(v: Nibble, a: Nibble, b: Nibble): Nibble {
    if v == a || v == b then XorBits(a, b) else 0
  }

  /** After `i` rounds the differences of the `i` highest elements stand in the `i` lowest places. */
  ghost predicate Rounds(x: Word, diff: Word, w: nat, i: nat, a: Nibble, b: Nibble)
    requires Fits(x, w) && i <= w
  {
    && |diff| == |x|
    && (forall q :: 0 < q <= i ==> diff[q] == Flag(x[w - i + q], a, b))
    && (forall q :: i < q < |x| ==> diff[q] == 0) && diff[0] == 0
  }

  lemma NextRound(x: Word, diff: Word, w: nat, i: nat, a: Nibble, b: Nibble)
    requires Fits(x, w) && i < w && Rounds(x, diff, w, i, a, b)
    ensures Rounds(x, Shl(diff[0 := XorBits(diff[0], Flag(x[w - i], a, b))], 1), w, i + 1, a, b)
  {
    var d := Shl(diff[0 := XorBits(diff[0], Flag(x[w - i], a, b))], 1);
    forall q | 0 < q <= i + 1 ensures d[q] == Flag(x[w - (i + 1) + q], a, b) {
      if q > 1 { assert d[q] == diff[q - 1]; }
    }
    forall q | i + 1 < q < |x| ensures d[q] == 0 {
      assert d[q] == diff[q - 1];
    }
  }

  lemma AllRounds(x: Word, diff: Word, w: nat, a: Nibble, b: Nibble)
    requires Fits(x, w) && Rounds(x, diff, w, w, a, b)
    ensures Xor(x, diff) == ExchangeValues(x, w, a, b)
  {
    XorTwice(a, b);
    var r := Xor(x, diff);
    forall q | 0 <= q < |x| ensures r[q] == if 1 <= q <= w then Other(x[q], a, b) else x[q] {
      assert r[q] == XorBits(x[q], diff[q]);
      if 1 <= q <= w { assert diff[q] == Flag(x[q], a, b); }
    }
  }

  // ----- any run of operations ----------------------------------------------------------------

  datatype Op =
    | Insert(i: nat)
    | Select(di: nat, si: nat)
    | Free(i: nat)
    | FreeToBack(i: nat)
    | Turn(i: nat, j: nat)
    | Swap(i: nat, j: nat)
    | SwapValues(a: Nibble, b: Nibble)

  /** The documented preconditions. */
  predicate Allowed(x: Word, w: nat, op: Op)
    requires Fits(x, w)
  {
    match op
    case Insert(i) => i < w && Size(x) < w
    case Select(di, si) => di < w && Size(x) <= si < w
    case Free(i) => i < Size(x) <= w
    case FreeToBack(i) => i < Size(x) <= w
    case Turn(i, j) => i <= j <= Size(x) <= w
    case Swap(i, j) => i < w && j < w
    case SwapValues(a, b) => a < w && b < w
  }

  /** insert_selected goes wrong if its target lies above its source, and only then. */
  predicate Sound(op: Op) {
    op.Select? ==> op.di <= op.si
  }

  function Do(x: Word, w: nat, op: Op): Word
    requires Fits(x, w) && Allowed(x, w, op)
  {
    match op
    case Insert(i) => InsertFromBack(x, w, i)
    case Select(di, si) => InsertSelected(x, w, di, si)
    case Free(i) => Remove(x, w, i)
    case FreeToBack(i) => RemoveToBack(x, w, i)
    case Turn(i, j) => Rotate(x, w, i, j)
    case Swap(i, j) => Exchange(x, w, i, j)
    case SwapValues(a, b) => ExchangeValues(x, w, a, b)
  }

  /** What an operation means on the list of elements. */
  function DoList(l: seq<Nibble>, size: nat, op: Op): seq<Nibble>
    requires |l| > 0
  {
    var w := |l|;
    match op
    case Insert(i) => if i < w then l[..i] + [l[w - 1]] + l[i..w - 1] else l
    case Select(di, si) => if di < w && si < w then Moved(l, di, si) else l
    case Free(i) => if i < size <= w then l[..i] + l[i + 1..size] + [l[i]] + l[size..] else l
    case FreeToBack(i) => if i < w then l[..i] + l[i + 1..] + [l[i]] else l
    case Turn(i, j) => if i <= j <= w then l[..i] + l[j..] + l[i..j] else l
    case Swap(i, j) => if i < w && j < w then l[i := l[j]][j := l[i]] else l
    case SwapValues(a, b) => seq(w, e requires 0 <= e < w => Other(l[e], a, b))
  }

  function SizeAfter(size: nat, op: Op): int {
    match op
    case Insert(_) => size + 1
    case Select(_, _) => size + 1
    case Free(_) => size - 1
    case FreeToBack(_) => size - 1
    case _ => size
  }

  ghost predicate Refined(x: Word, r: Word, w: nat, op: Op)
    requires Fits(x, w)
  {
    |r| == |x| && Valid(r, w) && Elems(r, w) == DoList(Elems(x, w), Size(x), op) && Size(r) == SizeAfter(Size(x), op)
  }

  lemma RefinedIs(x: Word, r: Word, w: nat, op: Op, m: seq<Nibble>)
    requires Valid(x, w) && |r| == |x| && Elems(r, w) == m && m == DoList(Elems(x, w), Size(x), op)
    requires Permutes(m, w) && Size(r) == SizeAfter(Size(x), op) && Size(r) <= w
    ensures Refined(x, r, w, op)
  {
  }

  lemma InsertRefines(x: Word, w: nat, i: nat)
    requires Valid(x, w) && Allowed(x, w, Insert(i))
    ensures Refined(x, InsertFromBack(x, w, i), w, Insert(i))
  {
    InsertFromBackOk(x, w, i);
    InsertPermutes(Elems(x, w), w, i);
  }

  lemma SelectRefines(x: Word, w: nat, di: nat, si: nat)
    requires Valid(x, w) && Allowed(x, w, Select(di, si))
    ensures Refined(x, InsertSelected(x, w, di, si), w, Select(di, si)) <==> di <= si
  {
    InsertSelectedOk(x, w, di, si);
    if di <= si {
      MovePermutes(Elems(x, w), w, di, si);
      RefinedIs(x, InsertSelected(x, w, di, si), w, Select(di, si), Moved(Elems(x, w), di, si));
    }
  }

  lemma FreeRefines(x: Word, w: nat, i: nat)
    requires Valid(x, w) && Allowed(x, w, Free(i))
    ensures Refined(x, Remove(x, w, i), w, Free(i))
  {
    RemoveOk(x, w, i);
    FreePermutes(Elems(x, w), w, i, Size(x));
  }

  lemma FreeToBackRefines(x: Word, w: nat, i: nat)
    requires Valid(x, w) && Allowed(x, w, FreeToBack(i))
    ensures Refined(x, RemoveToBack(x, w, i), w, FreeToBack(i))
  {
    var l := Elems(x, w);
    RemoveToBackOk(x, w, i);
    BackPermutes(l, w, i);
    RefinedIs(x, RemoveToBack(x, w, i), w, FreeToBack(i), l[..i] + l[i + 1..] + [l[i]]);
  }

  lemma TurnRefines(x: Word, w: nat, i: nat, j: nat)
    requires Valid(x, w) && Allowed(x, w, Turn(i, j))
    ensures Refined(x, Rotate(x, w, i, j), w, Turn(i, j))
  {
    RotateOk(x, w, i, j);
    TurnPermutes(Elems(x, w), w, i, j);
  }

  lemma SwapRefines(x: Word, w: nat, i: nat, j: nat)
    requires Valid(x, w) && Allowed(x, w, Swap(i, j))
    ensures Refined(x, Exchange(x, w, i, j), w, Swap(i, j))
  {
    var l := Elems(x, w);
    ExchangeOk(x, w, i, j);
    SwapPermutes(l, w, i, j);
    RefinedIs(x, Exchange(x, w, i, j), w, Swap(i, j), l[i := l[j]][j := l[i]]);
  }

  lemma SwapValuesRefines(x: Word, w: nat, a: Nibble, b: Nibble)
    requires Valid(x, w) && Allowed(x, w, SwapValues(a, b))
    ensures Refined(x, ExchangeValues(x, w, a, b), w, SwapValues(a, b))
  {
    ExchangeValuesOk(x, w, a, b);
  }

  /** An operation whose documented precondition holds does the list operation and keeps a permutation, if
      and only if it is not an insert_selected with its target above its source. */
  lemma DoOk(x: Word, w: nat, op: Op)
    requires Valid(x, w) && Allowed(x, w, op)
    ensures Refined(x, Do(x, w, op), w, op) <==> Sound(op)
  {
    match op
    case Insert(i) => InsertRefines(x, w, i);
    case Select(di, si) => SelectRefines(x, w, di, si);
    case Free(i) => FreeRefines(x, w, i);
    case FreeToBack(i) => FreeToBackRefines(x, w, i);
    case Turn(i, j) => TurnRefines(x, w, i, j);
    case Swap(i, j) => SwapRefines(x, w, i, j);
    case SwapValues(a, b) => SwapValuesRefines(x, w, a, b);
  }

  ghost predicate Run(xs: seq<Word>, ops: seq<Op>, w: nat) {
    && |xs| == |ops| + 1 && Fits(xs[0], w) && xs[0] == MakeEmpty(|xs[0]|, w)
    && forall i {:trigger StepAt(xs, ops, w, i)} :: 0 <= i < |ops| ==> StepAt(xs, ops, w, i)
  }

  ghost predicate StepAt(xs: seq<Word>, ops: seq<Op>, w: nat, i: nat)
    requires i + 1 < |xs| && i < |ops|
  {
    Fits(xs[i], w) && Allowed(xs[i], w, ops[i]) && xs[i + 1] == Do(xs[i], w, ops[i])
  }

  /** Over any run the word holds a permutation and each step is the list operation it stands for, up to
      the first unsound step; that one is not the list operation. */
  lemma {:induction false} RunOk(xs: seq<Word>, ops: seq<Op>, w: nat, i: nat)
    requires Run(xs, ops, w) && i < |xs| && forall j :: 0 <= j < i - 1 ==> Sound(ops[j])
    ensures i == 0 || Sound(ops[i - 1]) ==> Valid(xs[i], w)
    ensures i > 0 ==> Fits(xs[i - 1], w) && (Refined(xs[i - 1], xs[i], w, ops[i - 1]) <==> Sound(ops[i - 1]))
  {
    if i == 0 {
      MakeEmptyOk(|xs[0]|, w);
    } else {
      RunOk(xs, ops, w, i - 1);
      assert StepAt(xs, ops, w, i - 1);
      DoOk(xs[i - 1], w, ops[i - 1]);
    }
  }
}
