/*
 * Compile-time tables of the IBM (QPX) kernel header: the three type
 * selectors, the register type they deduce, and KN_WIDTH.
 */
module IbmKernelTypes {
  import opened TransTypes

  /** SIZE_REG: a register is 32 bytes wide. */
  const SizeReg: nat := 32

  /** TypeSelector::fhl_sc: float or FloatComplex, any kernel type. */
  predicate FhlSc(t: FloatKind, k: KernelType)
  {
    t == Float || t == FloatComplex
  }

  /** TypeSelector::f_d: a full kernel for double. */
  predicate FD(t: FloatKind, k: KernelType)
  {
    k == KernelFull && t == Double
  }

  /** TypeSelector::fhl_dz: double or DoubleComplex with a half or line
      kernel, or double with a full kernel. */
  predicate FhlDz(t: FloatKind, k: KernelType)
  {
    ((t == Double || t == DoubleComplex) && (k == KernelHalf || k == KernelLine))
    || (t == Double && k == KernelFull)
  }

  /** The register types of the three RegDeducer specialisations. */
  datatype RegType = RegFloat | Vector4Double | RegDouble

  /** Whether the specialisation yielding `r` is enabled for a pair. */
  predicate Selects(r: RegType, t: FloatKind, k: KernelType)
  {
    match r
    case RegFloat => FhlSc(t, k)
    case Vector4Double => FD(t, k)
    case RegDouble => FhlDz(t, k)
  }

  /** Number of enabled specialisations. */
  function SelectedCount(t: FloatKind, k: KernelType): nat
  {
    (if FhlSc(t, k) then 1 else 0) + (if FD(t, k) then 1 else 0) + (if FhlDz(t, k) then 1 else 0)
  }

  /** How the compiler resolves RegDeducer<FloatType, TYPE>::type: one
      enabled specialisation gives its type, two equally specialised ones
      are ambiguous, none leaves the primary template without a type. */
  datatype Deduction = Deduced(reg: RegType) | Ambiguous | NoSpecialisation

  function RegDeducer(t: FloatKind, k: KernelType): (d: Deduction)
    ensures d.Deduced? <==> SelectedCount(t, k) == 1
    ensures d.Ambiguous? <==> SelectedCount(t, k) > 1
    ensures d.Deduced? ==> Selects(d.reg, t, k)
    ensures d.Deduced? ==> forall s: RegType :: Selects(s, t, k) ==> s == d.reg
  {
    var n := SelectedCount(t, k);
    if n == 0 then NoSpecialisation
    else if n > 1 then Ambiguous
    else if FhlSc(t, k) then Deduced(RegFloat)
    else if FD(t, k) then Deduced(Vector4Double)
    else Deduced(RegDouble)
  }

  /** The selector truth table: fhl_sc and f_d as documented, fhl_dz
      overlapping f_d at (double, full), and nothing for
      (DoubleComplex, full). */
  lemma SelectorTable(t: FloatKind, k: KernelType)
    ensures FhlSc(t, k) <==> t in {Float, FloatComplex}
    ensures FD(t, k) <==> (t, k) == (Double, KernelFull)
    ensures FhlDz(t, k) <==> (t in {Double, DoubleComplex} && k != KernelFull) || (t, k) == (Double, KernelFull)
    ensures FD(t, k) && FhlDz(t, k) <==> (t, k) == (Double, KernelFull)
    ensures SelectedCount(t, k) == 0 <==> (t, k) == (DoubleComplex, KernelFull)
  {
  }

  /** The deduced register types: float for float/FloatComplex, double for
      the half and line kernels of double/DoubleComplex; the two full
      double-precision pairs have no usable register type. */
  lemma RegDeducerTable(t: FloatKind, k: KernelType)
    ensures (t == Float || t == FloatComplex) ==> RegDeducer(t, k) == Deduced(RegFloat)
    ensures (t == Double || t == DoubleComplex) && k != KernelFull ==> RegDeducer(t, k) == Deduced(RegDouble)
    ensures RegDeducer(Double, KernelFull) == Ambiguous
    ensures RegDeducer(DoubleComplex, KernelFull) == NoSpecialisation
  {
  }

  /** KernelTransData::KN_WIDTH. */
  function KnWidth(t: FloatKind, k: KernelType): (w: nat)
    ensures w >= 1
    ensures k == KernelFull ==> w * SizeOf(t) == SizeReg
    ensures k == KernelHalf ==> 2 * w * SizeOf(t) == SizeReg
    ensures k == KernelLine ==> w == 1
  {
    if k == KernelFull then SizeReg / SizeOf(t)
    else if k == KernelHalf then (SizeReg / SizeOf(t)) / 2
    else 1
  }
}
