/*
 * The AVX intrinsics the full kernels use, as functions on registers.
 * A register is the sequence of its lanes, lowest lane first: eight
 * single-precision lanes or four double-precision lanes of a 256-bit
 * register. The lane movements follow the operation listings of VUNPCKLPS,
 * VUNPCKHPS, VSHUFPS, VSHUFPD and VPERM2F128 in the Intel 64 and IA-32
 * Architectures Software Developer's Manual, Volume 2; the arithmetic
 * intrinsics are exact lane-wise operations on `int`.
 */
module AvxIntrinsics {

  type Reg = seq<int>

  /** _mm256_unpacklo_ps: interleave the low two lanes of each 128-bit half. */
  function UnpackLoPs(a: Reg, b: Reg): (r: Reg)
    requires |a| == 8 && |b| == 8
    ensures |r| == 8
  {
    [a[0], b[0], a[1], b[1], a[4], b[4], a[5], b[5]]
  }

  /** _mm256_unpackhi_ps: interleave the high two lanes of each 128-bit half. */
  function UnpackHiPs(a: Reg, b: Reg): (r: Reg)
    requires |a| == 8 && |b| == 8
    ensures |r| == 8
  {
    [a[2], b[2], a[3], b[3], a[6], b[6], a[7], b[7]]
  }

  /** Two-bit field `k` (0..3) of an 8-bit immediate. */
  function Field2(imm: nat, k: nat): (f: nat)
    requires k < 4
    ensures f < 4
  {
    if k == 0 then imm % 4 else Field2(imm / 4, k - 1)
  }

  /** Bit `k` of an immediate. */
  function Bit(imm: nat, k: nat): bool
  {
    if k == 0 then imm % 2 == 1 else Bit(imm / 2, k - 1)
  }

  /** _mm256_shuffle_ps: in each 128-bit half, two lanes of `a` then two
      lanes of `b`, chosen by the four 2-bit fields of `imm`. */
  function ShufflePs(a: Reg, b: Reg, imm: nat): (r: Reg)
    requires |a| == 8 && |b| == 8
    requires imm < 256
    ensures |r| == 8
  {
    [a[Field2(imm, 0)], a[Field2(imm, 1)], b[Field2(imm, 2)], b[Field2(imm, 3)],
     a[4 + Field2(imm, 0)], a[4 + Field2(imm, 1)], b[4 + Field2(imm, 2)], b[4 + Field2(imm, 3)]]
  }

  /** _mm256_shuffle_pd: lane 2h of the result is lane 2h or 2h+1 of `a`,
      lane 2h+1 is lane 2h or 2h+1 of `b`, selected by bits 0..3 of `imm`. */
  function ShufflePd(a: Reg, b: Reg, imm: nat): (r: Reg)
    requires |a| == 4 && |b| == 4
    requires imm < 16
    ensures |r| == 4
  {
    [if Bit(imm, 0) then a[1] else a[0],
     if Bit(imm, 1) then b[1] else b[0],
     if Bit(imm, 2) then a[3] else a[2],
     if Bit(imm, 3) then b[3] else b[2]]
  }

  /** One 128-bit half of a VPERM2F128 result, selected by a 4-bit
      control: bit 3 zeroes it, bits 1..0 pick a.lo, a.hi, b.lo or b.hi. */
  function SelectHalf(a: Reg, b: Reg, ctl: nat): (h: Reg)
    requires |a| == |b| && |a| % 2 == 0
    ensures |h| == |a| / 2
  {
    var n := |a| / 2;
    if Bit(ctl, 3) then seq(n, _ => 0)
    else if ctl % 4 == 0 then a[..n]
    else if ctl % 4 == 1 then a[n..]
    else if ctl % 4 == 2 then b[..n]
    else b[n..]
  }

  /** _mm256_permute2f128_ps / _pd: the low half is chosen by imm[3:0] and
      the high half by imm[7:4]; the lane type does not matter. */
  function Permute2f128(a: Reg, b: Reg, imm: nat): (r: Reg)
    requires |a| == |b| && |a| % 2 == 0
    requires imm < 256
    ensures |r| == |a|
  {
    SelectHalf(a, b, imm % 16) + SelectHalf(a, b, imm / 16)
  }

  /** _mm256_mul_ps / _pd: lane-wise product. */
  function MulLanes(a: Reg, b: Reg): (r: Reg)
    requires |a| == |b|
    ensures |r| == |a|
    ensures forall i :: 0 <= i < |a| ==> r[i] == a[i] * b[i]
  {
    seq(|a|, i requires 0 <= i < |a| => a[i] * b[i])
  }

  /** _mm256_add_ps / _pd: lane-wise sum. */
  function AddLanes(a: Reg, b: Reg): (r: Reg)
    requires |a| == |b|
    ensures |r| == |a|
    ensures forall i :: 0 <= i < |a| ==> r[i] == a[i] + b[i]
  {
    seq(|a|, i requires 0 <= i < |a| => a[i] + b[i])
  }

  /** _mm256_set1_ps / _pd: the same value in every lane. */
  function Set1(x: int, n: nat): (r: Reg)
    ensures |r| == n
    ensures forall i :: 0 <= i < n ==> r[i] == x
  {
    seq(n, _ => x)
  }
}
