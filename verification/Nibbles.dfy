/** Machine words read as nibbles, the lowest first. Shifts by multiples of four bits and masks that end
    at a nibble act nibble by nibble; the lemmas on `Value` tie each operation to the unsigned integer
    the word stands for. */
module Nibbles {

  type Nibble = n: int | 0 <= n < 16

  /** The bitwise operations on four bits. */
  function OrBits(a: Nibble, b: Nibble): (r: Nibble)
    ensures (a == 0 || a == b ==> r == b) && (b == 0 ==> r == a)
  {
    OrLaws(a as bv4, b as bv4);
    ((a as bv4) | (b as bv4)) as int
  }

  function XorBits(a: Nibble, b: Nibble): (r: Nibble)
    ensures (a == 0 ==> r == b) && (b == 0 ==> r == a) && (a == b <==> r == 0)
  {
    XorLaws(a as bv4, b as bv4);
    ((a as bv4) ^ (b as bv4)) as int
  }

  lemma OrLaws(a: bv4, b: bv4)
    ensures a | a == a && 0 | b == b && a | 0 == a
  {
  }

  lemma XorLaws(a: bv4, b: bv4)
    ensures a ^ a == 0 && 0 ^ b == b && a ^ 0 == a && (a ^ b == 0 ==> a == b)
    ensures a ^ (a ^ b) == b && b ^ (a ^ b) == a
  {
  }

  lemma BackAndForth(x: bv4, a: Nibble)
    ensures (x as int) as bv4 == x && (a as bv4) as int == a
  {
  }

  lemma XorTwice(a: Nibble, b: Nibble)
    ensures XorBits(a, XorBits(a, b)) == b && XorBits(b, XorBits(a, b)) == a
  {
    XorOnce(a, b);
    XorOnce(b, a);
    XorCommutes(a as bv4, b as bv4);
  }

  lemma XorCommutes(x: bv4, y: bv4)
    ensures x ^ y == y ^ x
  {
  }

  lemma XorOnce(a: Nibble, b: Nibble)
    ensures XorBits(a, XorBits(a, b)) == b
  {
    var x, y := a as bv4, b as bv4;
    XorLaws(x, y);
    BackAndForth(x ^ y, b);
    assert XorBits(a, b) as bv4 == x ^ y;
  }

  type Word = seq<Nibble>

  /** A mask that keeps or clears whole nibbles. */
  type Mask = seq<bool>

  function And(x: Word, m: Mask): (r: Word)
    requires |x| == |m|
    ensures |r| == |x| && forall i :: 0 <= i < |r| ==> r[i] == if m[i] then x[i] else 0
  {
    seq(|x|, i requires 0 <= i < |x| => if m[i] then x[i] else 0)
  }

  function Or(x: Word, y: Word): (r: Word)
    requires |x| == |y|
    ensures |r| == |x| && forall i :: 0 <= i < |r| ==> r[i] == OrBits(x[i], y[i])
  {
    seq(|x|, i requires 0 <= i < |x| => OrBits(x[i], y[i]))
  }

  function Xor(x: Word, y: Word): (r: Word)
    requires |x| == |y|
    ensures |r| == |x| && forall i :: 0 <= i < |r| ==> r[i] == XorBits(x[i], y[i])
  {
    seq(|x|, i requires 0 <= i < |x| => XorBits(x[i], y[i]))
  }

  function Not(m: Mask): (r: Mask)
    ensures |r| == |m| && forall i :: 0 <= i < |r| ==> r[i] == !m[i]
  {
    seq(|m|, i requires 0 <= i < |m| => !m[i])
  }

  /** Shift by `k` nibbles; what leaves the word is lost. */
  function Shl(x: Word, k: nat): (r: Word)
    ensures |r| == |x| && forall i :: 0 <= i < |r| ==> r[i] == if i < k then 0 else x[i - k]
  {
    seq(|x|, i requires 0 <= i < |x| => if i < k then 0 else x[i - k])
  }

  function Shr(x: Word, k: nat): (r: Word)
    ensures |r| == |x| && forall i :: 0 <= i < |r| ==> r[i] == if i + k < |x| then x[i + k] else 0
  {
    seq(|x|, i requires 0 <= i < |x| => if i + k < |x| then x[i + k] else 0)
  }

  /** All ones in the `k` lowest of `n` nibbles: (1 << 4k) - 1, or the whole word if that overflows. */
  function Low(n: nat, k: nat): (r: Mask)
    ensures |r| == n && forall i :: 0 <= i < n ==> r[i] == (i < k)
  {
    seq(n, i requires 0 <= i < n => i < k)
  }

  /** A mask moved up by `k` nibbles. */
  function ShlMask(m: Mask, k: nat): (r: Mask)
    ensures |r| == |m| && forall i :: 0 <= i < |r| ==> r[i] == (k <= i && m[i - k])
  {
    seq(|m|, i requires 0 <= i < |m| => k <= i && m[i - k])
  }

  /** The nibble `v` shifted to place `at`. */
  function Single(n: nat, v: Nibble, at: nat): (r: Word)
    ensures |r| == n && forall i :: 0 <= i < n ==> r[i] == if i == at then v else 0
  {
    seq(n, i requires 0 <= i < n => if i == at then v else 0)
  }

  /** Adding one where nothing is carried. */
  function Inc(x: Word): (r: Word)
    requires x != [] && x[0] < 15
    ensures |r| == |x|
  {
    x[0 := x[0] + 1]
  }

  /** Subtracting one where nothing is borrowed. */
  function Dec(x: Word): (r: Word)
    requires x != [] && 0 < x[0]
    ensures |r| == |x|
  {
    x[0 := x[0] - 1]
  }

  // ----- words as integers --------------------------------------------------------------------

  function Power(n: nat): (p: nat)
    ensures p > 0
  {
    if n == 0 then 1 else 16 * Power(n - 1)
  }

  function Value(x: Word): nat {
    if x == [] then 0 else x[0] + 16 * Value(x[1..])
  }

  lemma {:induction false} ValueBound(x: Word)
    ensures Value(x) < Power(|x|)
  {
    if x != [] {
      ValueBound(x[1..]);
    }
  }

  lemma ValueInc(x: Word)
    requires x != [] && x[0] < 15
    ensures Value(Inc(x)) == Value(x) + 1
  {
    assert Inc(x)[1..] == x[1..];
  }

  lemma ValueDec(x: Word)
    requires x != [] && 0 < x[0]
    ensures Value(Dec(x)) == Value(x) - 1
  {
    assert Dec(x)[1..] == x[1..];
  }

  /** Masking with 16^k - 1 takes the remainder by 16^k. */
  lemma ValueAndLow(x: Word, k: nat)
    requires k <= |x|
    ensures Value(And(x, Low(|x|, k))) == Value(x[..k])
  {
    Padded(x[..k], And(x, Low(|x|, k)));
  }

  /** A right shift divides: the word is its low nibbles and the shifted rest. */
  lemma {:induction false} ValueCut(x: Word, k: nat)
    requires k <= |x|
    ensures Value(x) == Value(x[..k]) + Power(k) * Value(x[k..]) && Value(x[..k]) < Power(k)
  {
    if k == 0 {
      assert x[..0] == [] && x[0..] == x;
    } else {
      ValueCut(x[1..], k - 1);
      ValueBound(x[..k]);
      CutStep(x, k);
      Scale(Power(k - 1), Value(x[k..]));
    }
  }

  lemma CutStep(x: Word, k: nat)
    requires 0 < k <= |x|
    ensures Value(x) == x[0] + 16 * Value(x[1..])
    ensures Value(x[..k]) == x[0] + 16 * Value(x[1..][..k - 1])
    ensures x[1..][k - 1..] == x[k..]
  {
    assert x[1..][..k - 1] == x[..k][1..];
  }

  lemma Scale(p: nat, h: nat)
    ensures 16 * (p * h) == (16 * p) * h
  {
  }

  lemma ValueShr(x: Word, k: nat)
    requires k <= |x|
    ensures Value(Shr(x, k)) == Value(x[k..])
  {
    Padded(x[k..], Shr(x, k));
  }

  lemma {:induction false} Padded(x: Word, y: Word)
    requires |x| <= |y| && (forall i :: 0 <= i < |x| ==> y[i] == x[i]) && (forall i :: |x| <= i < |y| ==> y[i] == 0)
    ensures Value(y) == Value(x)
  {
    if y != [] {
      Padded(if x == [] then [] else x[1..], y[1..]);
    }
  }

  /** A left shift multiplies what stays in the word. */
  lemma {:induction false} ValueShl(x: Word, k: nat)
    requires k <= |x|
    ensures Value(Shl(x, k)) == Power(k) * Value(x[..|x| - k])
  {
    if k == 0 {
      assert Shl(x, 0) == x && x[..|x|] == x;
    } else {
      ValueShl(x[..|x| - 1], k - 1);
      ShlStep(x, k);
      Scale(Power(k - 1), Value(x[..|x| - k]));
    }
  }

  lemma ShlStep(x: Word, k: nat)
    requires 0 < k <= |x|
    ensures Value(Shl(x, k)) == 16 * Value(Shl(x[..|x| - 1], k - 1))
    ensures x[..|x| - 1][..|x| - k] == x[..|x| - k]
  {
    assert Shl(x, k)[1..] == Shl(x[..|x| - 1], k - 1);
  }
}
