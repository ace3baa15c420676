/*
 * Shared vocabulary of the transpose library: the coefficient-usage and
 * kernel-type enumerations, the four element kinds, and the complex
 * element used by the complex kernels.
 *
 * Arithmetic is abstract: every floating-point value of the library is
 * modelled as an `int`, so `alpha * x + beta * y` is exact here.
 */
module TransTypes {

  /** CoefUsageTrans: which coefficients a kernel applies, as two bits
      (bit 0 = alpha, bit 1 = beta). */
  datatype CoefUsage = UseNone | UseAlpha | UseBeta | UseBoth

  /** The enumerator value of a coefficient usage. */
  function UsageBits(u: CoefUsage): (b: nat)
    ensures b < 4
  {
    match u
    case UseNone => 0x0
    case UseAlpha => 0x1
    case UseBeta => 0x2
    case UseBoth => 0x3
  }

  /** The encoding is a bijection onto 0..3. */
  function UsageOfBits(b: nat): (u: CoefUsage)
    requires b < 4
    ensures UsageBits(u) == b
  {
    if b == 0 then UseNone else if b == 1 then UseAlpha
    else if b == 2 then UseBeta else UseBoth
  }

  /** KernelTypeTrans: full register width, half width, or one element. */
  datatype KernelType = KernelFull | KernelHalf | KernelLine

  function KernelTypeValue(k: KernelType): (v: nat)
    ensures v < 3
  {
    match k
    case KernelFull => 0
    case KernelHalf => 1
    case KernelLine => 2
  }

  /** The four element types the library is instantiated for. */
  datatype FloatKind = Float | Double | FloatComplex | DoubleComplex

  /** sizeof(FloatType) in bytes. */
  function SizeOf(t: FloatKind): (n: nat)
    ensures n == 4 || n == 8 || n == 16
  {
    match t
    case Float => 4
    case Double => 8
    case FloatComplex => 8
    case DoubleComplex => 16
  }

  /** A complex element: two scalars kept side by side in memory. */
  datatype Complex = Complex(re: int, im: int)

  datatype Option<T> = None | Some(value: T)
}
