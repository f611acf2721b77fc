/**
 * Model of u_macros.h: the min/max/swap helper macros.
 * The macros are type-generic in C; they are modelled on unbounded integers.
 */
module Macros {

  /** UM_MAX(a, b): `a > b ? a : b`, so a tie yields b. */
  function Max(a: int, b: int): (r: int)
    ensures r >= a && r >= b
    ensures r == a || r == b
    ensures a <= b ==> r == b
  {
    if a > b then a else b
  }

  /** UM_MAX3(a, b, c) = UM_MAX(UM_MAX(a, b), c). */
  function Max3(a: int, b: int, c: int): (r: int)
    ensures r >= a && r >= b && r >= c
    ensures r == a || r == b || r == c
  {
    Max(Max(a, b), c)
  }

  /** UM_MIN(a, b): `a > b ? b : a`, so a tie yields a. */
  function Min(a: int, b: int): (r: int)
    ensures r <= a && r <= b
    ensures r == a || r == b
    ensures a <= b ==> r == a
  {
    if a > b then b else a
  }

  /** UM_MIN3(a, b, c) = UM_MIN(UM_MIN(a, b), c). */
  function Min3(a: int, b: int, c: int): (r: int)
    ensures r <= a && r <= b && r <= c
    ensures r == a || r == b || r == c
  {
    Min(Min(a, b), c)
  }

  /**
   * UM_SWAP(type, a, b): `type tmp = b; b = a; a = tmp;`.
   * The two lvalues are passed in and their new values handed back.
   */
  method Swap<T>(a: T, b: T) returns (a': T, b': T)
    ensures a' == b && b' == a
  {
    var tmp := b;
    b' := a;
    a' := tmp;
  }
}
