/**
 * Model of u_common.h: absolute value, sign and clipping on C `int`.
 * The macros are type-generic; they are modelled on 32-bit signed integers,
 * which is where the "minimum has no absolute value" remark applies.
 */
module Common {

  const INT32_MIN: int := -0x8000_0000
  const INT32_MAX: int := 0x7fff_ffff

  type Int32 = x: int | INT32_MIN <= x <= INT32_MAX

  /**
   * UC_ABS(a) = `a >= 0 ? a : -a`. Negating the type's minimum overflows,
   * which the source documents as undefined, so that one value is excluded.
   */
  function Abs(a: Int32): (r: Int32)
    requires a != INT32_MIN
    ensures r >= 0
    ensures r == a || r == -a
  {
    if a >= 0 then a else -a
  }

  /** UC_SIGN(a) = `a > 0 ? 1 : -1`: zero counts as negative. */
  function Sign(a: Int32): (r: Int32)
    ensures r == 1 <==> a > 0
    ensures r == -1 <==> a <= 0
  {
    if a > 0 then 1 else -1
  }

  /**
   * UC_NABS(a) = `a <= 0 ? a : -a`: the negative absolute value, defined for
   * every value of the type because every positive value can be negated.
   */
  function NAbs(a: Int32): (r: Int32)
    ensures r <= 0
    ensures r == a || r as int == -(a as int)
  {
    if a <= 0 then a else -a
  }

  /** uc_clip_c(a, amin, amax): clip a into [amin, amax]. */
  function Clip(a: Int32, amin: Int32, amax: Int32): (r: Int32)
    ensures amin <= amax ==> amin <= r <= amax
    ensures amin <= a <= amax ==> r == a
    ensures a < amin ==> r == amin
    ensures a >= amin && a > amax ==> r == amax
  {
    if a < amin then amin
    else if a > amax then amax
    else a
  }

  /** Clipping an already clipped value changes nothing. */
  lemma ClipIdempotent(a: Int32, amin: Int32, amax: Int32)
    requires amin <= amax
    ensures Clip(Clip(a, amin, amax), amin, amax) == Clip(a, amin, amax)
  {
  }

  /** The absolute value and the negative absolute value are each other's negation. */
  lemma AbsIsMinusNAbs(a: Int32)
    requires a != INT32_MIN
    ensures Abs(a) == -NAbs(a)
  {
  }
}
