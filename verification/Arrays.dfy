/** memmove and memcpy on arrays. */
module Arrays {

  /** memmove of n elements from pos to pos + 1, then a store at pos. */
  method ShiftIn<T>(a: array<T>, pos: nat, n: nat, x: T)
    requires pos + n < a.Length
    modifies a
    ensures a[..pos + n + 1] == old(a[..pos]) + [x] + old(a[pos..pos + n])
  {
    forall i | pos < i <= pos + n {
      a[i] := a[i - 1];
    }
    a[pos] := x;
    assert a[pos + 1..pos + n + 1] == old(a[pos..pos + n]);
    assert a[..pos + n + 1] == a[..pos] + [a[pos]] + a[pos + 1..pos + n + 1];
  }

  /** memcpy of n elements. */
  method CopyOut<T>(dst: array<T>, src: array<T>, from: nat, n: nat)
    requires dst != src && n <= dst.Length && from + n <= src.Length
    modifies dst
    ensures dst[..n] == src[from..from + n]
  {
    forall i | 0 <= i < n {
      dst[i] := src[from + i];
    }
  }
}
