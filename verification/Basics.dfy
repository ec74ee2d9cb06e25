/** Machine integers and small helpers shared by every module. */
module Basics {

  datatype Option<+T> = None | Some(value: T)

  const INT64_MIN: int := -0x8000_0000_0000_0000
  const INT64_MAX: int := 0x7FFF_FFFF_FFFF_FFFF
  const TWO64: int := 0x1_0000_0000_0000_0000

  /** Go's signed 64-bit integer. */
  type int64 = x: int | INT64_MIN <= x <= INT64_MAX

  /** How far out a number is: 0 inside the range of an int64. */
  function OutOfRange(x: int): nat {
    if x > INT64_MAX then x else if x < INT64_MIN then -x else 0
  }

  /** Go's signed 64-bit arithmetic: a result out of range wraps around. */
  function Wrap64(x: int): int64
    decreases OutOfRange(x)
  {
    if x > INT64_MAX then Wrap64(x - TWO64)
    else if x < INT64_MIN then Wrap64(x + TWO64)
    else x
  }

  /** Go's conversion of an int64 to a uint64. */
  function ToU64(x: int64): nat {
    if x < 0 then x + TWO64 else x
  }

  function Min(x: int, y: int): int {
    if x <= y then x else y
  }

  function Max(x: int, y: int): int {
    if x <= y then y else x
  }

  lemma WrapFits(x: int)
    requires INT64_MIN <= x <= INT64_MAX
    ensures Wrap64(x) == x
  {
  }

  /** An int64 and its uint64 agree modulo 2^64; no negative number stays small. */
  lemma ConversionKeepsBits(x: int64)
    ensures 0 <= ToU64(x) <= 0xFFFF_FFFF_FFFF_FFFF
    ensures ToU64(x) == x || ToU64(x) == x + 0x1_0000_0000_0000_0000
    ensures x < 0 <==> ToU64(x) >= 0x8000_0000_0000_0000
  {
  }

  lemma {:induction false} WrapShift(x: int)
    ensures Wrap64(x + TWO64) == Wrap64(x)
    decreases OutOfRange(x)
  {
    if x + TWO64 < INT64_MIN {
      WrapShift(x + TWO64);
    }
  }

  /** Wrapping at every step of a computation or only at its end is the same. */
  lemma {:induction false} WrapAdd(x: int, y: int)
    ensures Wrap64(Wrap64(x) + y) == Wrap64(x + y)
    decreases OutOfRange(x)
  {
    if x > INT64_MAX {
      WrapAdd(x - TWO64, y);
      WrapShift(x - TWO64 + y);
    } else if x < INT64_MIN {
      WrapAdd(x + TWO64, y);
      WrapShift(x + y);
    }
  }

  lemma {:induction false} TimesMonotone(a: nat, b: nat, r: nat)
    requires a <= b
    ensures a * r <= b * r
  {
    if a < b {
      TimesMonotone(a, b - 1, r);
      assert b * r == (b - 1) * r + r;
    }
  }
}
