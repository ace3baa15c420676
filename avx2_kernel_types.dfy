/*
 * Compile-time tables of the AVX2 kernel header: which register type a
 * (element kind, kernel type) pair is given, and how many elements a
 * kernel of that pair handles per row (its tile width).
 */
module Avx2KernelTypes {
  import opened TransTypes

  /** REG_SIZE_BYTE_AVX2: an AVX2 register is 32 bytes wide. */
  const RegSizeByte: nat := 32

  /** The register types the six RegTypeDeducer specialisations name. */
  datatype RegType = M256 | M256d | M128 | M128d | ScalarFloat | ScalarDouble

  /** Size of each register type in bytes. */
  function RegBytes(r: RegType): nat
  {
    match r
    case M256 => 32
    case M256d => 32
    case M128 => 16
    case M128d => 16
    case ScalarFloat => 4
    case ScalarDouble => 8
  }

  predicate IsVector(r: RegType)
  {
    r in {M256, M256d, M128, M128d}
  }

  /** The enable condition of the specialisation that yields register
      type `r`, written as in the header. */
  predicate Enabled(r: RegType, t: FloatKind, k: KernelType)
  {
    match r
    case M256 => (t == Float || t == FloatComplex) && k == KernelFull
    case M256d => (t == Double || t == DoubleComplex) && k == KernelFull
    case M128 => (t == Float || t == FloatComplex) && k == KernelHalf
    case M128d => t == Double && k == KernelHalf
    case ScalarFloat => k == KernelLine && (t == Float || t == FloatComplex)
    case ScalarDouble =>
      (k == KernelLine && (t == Double || t == DoubleComplex))
      || (k == KernelHalf && t == DoubleComplex)
  }

  /** DeducedRegType: the register type chosen for a pair. Every pair
      enables exactly one specialisation, so the choice is well defined. */
  function DeducedRegType(t: FloatKind, k: KernelType): (r: RegType)
    ensures Enabled(r, t, k)
    ensures forall s: RegType :: Enabled(s, t, k) ==> s == r
  {
    match k
    case KernelFull => if t == Float || t == FloatComplex then M256 else M256d
    case KernelHalf =>
      if t == Float || t == FloatComplex then M128
      else if t == Double then M128d
      else ScalarDouble
    case KernelLine => if t == Float || t == FloatComplex then ScalarFloat else ScalarDouble
  }

  /** KernelTransAvx2Base::kn_width. A full kernel row fills a register,
      a half kernel row fills half of one, a line kernel handles one
      element. */
  function KnWidth(t: FloatKind, k: KernelType): (w: nat)
    ensures w >= 1
    ensures k == KernelFull ==> w * SizeOf(t) == RegSizeByte
    ensures k == KernelHalf ==> 2 * w * SizeOf(t) == RegSizeByte
    ensures k == KernelLine ==> w == 1
  {
    if k == KernelFull then RegSizeByte / SizeOf(t)
    else if k == KernelHalf then RegSizeByte / SizeOf(t) / 2
    else 1
  }

  /** The widths for the four element kinds: 8/4/4/2 full, 4/2/2/1 half. */
  lemma KnWidthValues()
    ensures KnWidth(Float, KernelFull) == 8 && KnWidth(Double, KernelFull) == 4
    ensures KnWidth(FloatComplex, KernelFull) == 4 && KnWidth(DoubleComplex, KernelFull) == 2
    ensures KnWidth(Float, KernelHalf) == 4 && KnWidth(Double, KernelHalf) == 2
    ensures KnWidth(FloatComplex, KernelHalf) == 2 && KnWidth(DoubleComplex, KernelHalf) == 1
    ensures forall t: FloatKind :: KnWidth(t, KernelLine) == 1
  {
  }

  /** A pair gets a vector register exactly when its tile row holds more
      than one element; a vector register then holds exactly one tile row,
      and a scalar register holds one real component (float or double). */
  lemma RegisterHoldsTileRow(t: FloatKind, k: KernelType)
    ensures IsVector(DeducedRegType(t, k)) <==> KnWidth(t, k) > 1
    ensures IsVector(DeducedRegType(t, k)) ==>
              RegBytes(DeducedRegType(t, k)) == KnWidth(t, k) * SizeOf(t)
    ensures !IsVector(DeducedRegType(t, k)) ==>
              RegBytes(DeducedRegType(t, k)) == (if t == Float || t == FloatComplex then 4 else 8)
  {
  }
}
