/** The permuter as an object: a field holding the packed word, changed by each operation. */
module KpermuterClass {
  import opened Nibbles
  import opened Kpermuter

  lemma ShlOnce(x: Word, i: nat)
    ensures Shl(Shl(x, i), 1) == Shl(x, i + 1)
  {
  }

  class Permuter {
    const w: nat
    var x: Word

    ghost predicate Ok()
      reads this
    {
      Valid(x, w)
    }

    constructor (n: nat, w: nat)
      requires 1 <= w < n <= 16
      ensures Ok() && this.w == w && |x| == n && Size(x) == 0 && Elems(x, w) == Fresh(w)
    {
      this.w := w;
      x := MakeEmpty(n, w);
      MakeEmptyOk(n, w);
    }

    method InsertFromBack(i: nat) returns (value: Nibble)
      requires Ok() && i < w && Size(x) < w
      modifies this
      ensures Ok() && Size(x) == old(Size(x)) + 1
      ensures value == old(Elems(x, w)[w - 1])
      ensures Elems(x, w) == old(Elems(x, w)[..i]) + [value] + old(Elems(x, w)[i..w - 1])
    {
      InsertRefines(x, w, i);
      value := x[w];
      x := Kpermuter.InsertFromBack(x, w, i);
    }

    method Remove(i: nat)
      requires Ok() && i < Size(x)
      modifies this
      ensures Ok() && Size(x) == old(Size(x)) - 1
      ensures var l, s := old(Elems(x, w)), old(Size(x));
              Elems(x, w) == l[..i] + l[i + 1..s] + [l[i]] + l[s..]
    {
      FreeRefines(x, w, i);
      x := Kpermuter.Remove(x, w, i);
    }

    method ExchangeValues(a: Nibble, b: Nibble)
      requires Ok() && a < w && b < w
      modifies this
      ensures Ok() && x == old(Kpermuter.ExchangeValues(x, w, a, b))
    {
      ExchangeValuesOk(x, w, a, b);
      var diff: Word, p: Word := Shl(x, |x|), x;
      var i := 0;
      while i < w
        invariant i <= w && x == old(x) && p == Shl(x, i) && Rounds(x, diff, w, i, a, b)
      {
        var v := p[w];
        NextRound(x, diff, w, i, a, b);
        ShlOnce(x, i);
        i, diff, p := i + 1, Shl(diff[0 := XorBits(diff[0], Flag(v, a, b))], 1), Shl(p, 1);
      }
      AllRounds(x, diff, w, a, b);
      x := Xor(x, diff);
    }

    method InsertSelected(di: nat, si: nat)
      requires Ok() && di < w && Size(x) <= si < w
      modifies this
      ensures |x| == old(|x|) && Size(x) == old(Size(x)) + 1 && (di <= si ==> Ok())
      ensures Elems(x, w) == old(Moved(Elems(x, w), di, si)) <==> di <= si
    {
      InsertSelectedOk(x, w, di, si);
      SelectRefines(x, w, di, si);
      x := Kpermuter.InsertSelected(x, w, di, si);
    }

    method RemoveToBack(i: nat)
      requires Ok() && i < Size(x)
      modifies this
      ensures Ok() && Size(x) == old(Size(x)) - 1
      ensures var l := old(Elems(x, w));
              Elems(x, w) == l[..i] + l[i + 1..] + [l[i]]
    {
      FreeToBackRefines(x, w, i);
      x := Kpermuter.RemoveToBack(x, w, i);
    }

    method Rotate(i: nat, j: nat)
      requires Ok() && i <= j <= Size(x)
      modifies this
      ensures Ok() && Size(x) == old(Size(x))
      ensures var l := old(Elems(x, w));
              Elems(x, w) == l[..i] + l[j..] + l[i..j]
    {
      TurnRefines(x, w, i, j);
      x := Kpermuter.Rotate(x, w, i, j);
    }

    method Exchange(i: nat, j: nat)
      requires Ok() && i < w && j < w
      modifies this
      ensures Ok() && Size(x) == old(Size(x))
      ensures var l := old(Elems(x, w));
              Elems(x, w) == l[i := l[j]][j := l[i]]
    {
      SwapRefines(x, w, i, j);
      x := Kpermuter.Exchange(x, w, i, j);
    }
  }
}
