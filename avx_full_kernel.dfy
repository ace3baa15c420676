/*
 * The full-width AVX transpose kernels: one tile of KN_WIDTH x KN_WIDTH
 * elements is loaded row by row, transposed in registers by a fixed network
 * of lane permutations, optionally scaled by alpha and combined with beta
 * times the old output, and stored row by row.
 */
module AvxFullKernel {
  import opened TransTypes
  import opened Memory
  import opened AvxIntrinsics

  /** Each row of `rows` has `n` lanes. */
  predicate Rows(rows: seq<Reg>, count: nat, n: nat)
  {
    |rows| == count && forall k :: 0 <= k < count ==> |rows[k]| == n
  }

  /** Lane c of row r of `t` is lane r of row c of `m`, for an n x n grid. */
  predicate IsTranspose(t: seq<Reg>, m: seq<Reg>, n: nat)
  {
    Rows(t, n, n) && Rows(m, n, n)
    && forall r, c :: 0 <= r < n && 0 <= c < n ==> t[r][c] == m[c][r]
  }

  /** For an n x n grid of complex elements, each two float (or double)
      lanes wide: element c of row r of `t` is element r of row c of `m`,
      with the real and imaginary lanes kept in order. */
  predicate IsPairTranspose(t: seq<Reg>, m: seq<Reg>, n: nat)
  {
    Rows(t, n, 2 * n) && Rows(m, n, 2 * n)
    && forall r, c :: 0 <= r < n && 0 <= c < n ==>
         t[r][2 * c] == m[c][2 * r] && t[r][2 * c + 1] == m[c][2 * r + 1]
  }

  /** The 8 x 8 float network: unpacklo/unpackhi, shuffle 0x44/0xEE and
      permute2f128 0x2/0x13. */
  function NetworkFloat(ri: seq<Reg>): (ro: seq<Reg>)
    requires Rows(ri, 8, 8)
    ensures Rows(ro, 8, 8)
  {
    var r0 := UnpackLoPs(ri[0], ri[1]);
    var r1 := UnpackHiPs(ri[0], ri[1]);
    var r2 := UnpackLoPs(ri[2], ri[3]);
    var r3 := UnpackHiPs(ri[2], ri[3]);
    var r4 := UnpackLoPs(ri[4], ri[5]);
    var r5 := UnpackHiPs(ri[4], ri[5]);
    var r6 := UnpackLoPs(ri[6], ri[7]);
    var r7 := UnpackHiPs(ri[6], ri[7]);
    var r8 := ShufflePs(r0, r2, 0x44);
    var r9 := ShufflePs(r0, r2, 0xEE);
    var r10 := ShufflePs(r1, r3, 0x44);
    var r11 := ShufflePs(r1, r3, 0xEE);
    var r12 := ShufflePs(r4, r6, 0x44);
    var r13 := ShufflePs(r4, r6, 0xEE);
    var r14 := ShufflePs(r5, r7, 0x44);
    var r15 := ShufflePs(r5, r7, 0xEE);
    [Permute2f128(r12, r8, 0x2), Permute2f128(r13, r9, 0x2),
     Permute2f128(r14, r10, 0x2), Permute2f128(r15, r11, 0x2),
     Permute2f128(r12, r8, 0x13), Permute2f128(r13, r9, 0x13),
     Permute2f128(r14, r10, 0x13), Permute2f128(r15, r11, 0x13)]
  }

  /** The 4 x 4 double network: shuffle_pd 0x3/0xC and permute2f128 0x2/0x13. */
  function NetworkDouble(ri: seq<Reg>): (ro: seq<Reg>)
    requires Rows(ri, 4, 4)
    ensures Rows(ro, 4, 4)
  {
    var r0 := ShufflePd(ri[0], ri[1], 0x3);
    var r1 := ShufflePd(ri[0], ri[1], 0xC);
    var r2 := ShufflePd(ri[2], ri[3], 0x3);
    var r3 := ShufflePd(ri[2], ri[3], 0xC);
    [Permute2f128(r3, r1, 0x2), Permute2f128(r2, r0, 0x2),
     Permute2f128(r2, r0, 0x13), Permute2f128(r3, r1, 0x13)]
  }

  /** The 4 x 4 FloatComplex network on 8 float lanes per row: shuffle_ps
      0x44/0xEE and permute2f128 0x2/0x13. */
  function NetworkFloatComplex(ri: seq<Reg>): (ro: seq<Reg>)
    requires Rows(ri, 4, 8)
    ensures Rows(ro, 4, 8)
  {
    var r0 := ShufflePs(ri[0], ri[1], 0x44);
    var r1 := ShufflePs(ri[0], ri[1], 0xEE);
    var r2 := ShufflePs(ri[2], ri[3], 0x44);
    var r3 := ShufflePs(ri[2], ri[3], 0xEE);
    [Permute2f128(r2, r0, 0x2), Permute2f128(r3, r1, 0x2),
     Permute2f128(r2, r0, 0x13), Permute2f128(r3, r1, 0x13)]
  }

  /** The 2 x 2 DoubleComplex network on 4 double lanes per row:
      permute2f128 0x2/0x13. */
  function NetworkDoubleComplex(ri: seq<Reg>): (ro: seq<Reg>)
    requires Rows(ri, 2, 4)
    ensures Rows(ro, 2, 4)
  {
    [Permute2f128(ri[1], ri[0], 0x2), Permute2f128(ri[1], ri[0], 0x13)]
  }

  lemma NetworkFloatTransposes(ri: seq<Reg>)
    requires Rows(ri, 8, 8)
    ensures IsTranspose(NetworkFloat(ri), ri, 8)
  {
    var ro := NetworkFloat(ri);
    assert ro[0][0] == ri[0][0];
    assert ro[0][1] == ri[1][0];
    assert ro[0][2] == ri[2][0];
    assert ro[0][3] == ri[3][0];
    assert ro[0][4] == ri[4][0];
    assert ro[0][5] == ri[5][0];
    assert ro[0][6] == ri[6][0];
    assert ro[0][7] == ri[7][0];
    assert ro[1][0] == ri[0][1];
    assert ro[1][1] == ri[1][1];
    assert ro[1][2] == ri[2][1];
    assert ro[1][3] == ri[3][1];
    assert ro[1][4] == ri[4][1];
    assert ro[1][5] == ri[5][1];
    assert ro[1][6] == ri[6][1];
    assert ro[1][7] == ri[7][1];
    assert ro[2][0] == ri[0][2];
    assert ro[2][1] == ri[1][2];
    assert ro[2][2] == ri[2][2];
    assert ro[2][3] == ri[3][2];
    assert ro[2][4] == ri[4][2];
    assert ro[2][5] == ri[5][2];
    assert ro[2][6] == ri[6][2];
    assert ro[2][7] == ri[7][2];
    assert ro[3][0] == ri[0][3];
    assert ro[3][1] == ri[1][3];
    assert ro[3][2] == ri[2][3];
    assert ro[3][3] == ri[3][3];
    assert ro[3][4] == ri[4][3];
    assert ro[3][5] == ri[5][3];
    assert ro[3][6] == ri[6][3];
    assert ro[3][7] == ri[7][3];
    assert ro[4][0] == ri[0][4];
    assert ro[4][1] == ri[1][4];
    assert ro[4][2] == ri[2][4];
    assert ro[4][3] == ri[3][4];
    assert ro[4][4] == ri[4][4];
    assert ro[4][5] == ri[5][4];
    assert ro[4][6] == ri[6][4];
    assert ro[4][7] == ri[7][4];
    assert ro[5][0] == ri[0][5];
    assert ro[5][1] == ri[1][5];
    assert ro[5][2] == ri[2][5];
    assert ro[5][3] == ri[3][5];
    assert ro[5][4] == ri[4][5];
    assert ro[5][5] == ri[5][5];
    assert ro[5][6] == ri[6][5];
    assert ro[5][7] == ri[7][5];
    assert ro[6][0] == ri[0][6];
    assert ro[6][1] == ri[1][6];
    assert ro[6][2] == ri[2][6];
    assert ro[6][3] == ri[3][6];
    assert ro[6][4] == ri[4][6];
    assert ro[6][5] == ri[5][6];
    assert ro[6][6] == ri[6][6];
    assert ro[6][7] == ri[7][6];
    assert ro[7][0] == ri[0][7];
    assert ro[7][1] == ri[1][7];
    assert ro[7][2] == ri[2][7];
    assert ro[7][3] == ri[3][7];
    assert ro[7][4] == ri[4][7];
    assert ro[7][5] == ri[5][7];
    assert ro[7][6] == ri[6][7];
    assert ro[7][7] == ri[7][7];
  }

  lemma NetworkDoubleTransposes(ri: seq<Reg>)
    requires Rows(ri, 4, 4)
    ensures IsTranspose(NetworkDouble(ri), ri, 4)
  {
  }

  lemma NetworkFloatComplexTransposes(ri: seq<Reg>)
    requires Rows(ri, 4, 8)
    ensures IsPairTranspose(NetworkFloatComplex(ri), ri, 4)
  {
    var ro := NetworkFloatComplex(ri);
    assert ro[0][0] == ri[0][0] && ro[0][1] == ri[0][1];
    assert ro[0][2] == ri[1][0] && ro[0][3] == ri[1][1];
    assert ro[0][4] == ri[2][0] && ro[0][5] == ri[2][1];
    assert ro[0][6] == ri[3][0] && ro[0][7] == ri[3][1];
    assert ro[1][0] == ri[0][2] && ro[1][1] == ri[0][3];
    assert ro[1][2] == ri[1][2] && ro[1][3] == ri[1][3];
    assert ro[1][4] == ri[2][2] && ro[1][5] == ri[2][3];
    assert ro[1][6] == ri[3][2] && ro[1][7] == ri[3][3];
    assert ro[2][0] == ri[0][4] && ro[2][1] == ri[0][5];
    assert ro[2][2] == ri[1][4] && ro[2][3] == ri[1][5];
    assert ro[2][4] == ri[2][4] && ro[2][5] == ri[2][5];
    assert ro[2][6] == ri[3][4] && ro[2][7] == ri[3][5];
    assert ro[3][0] == ri[0][6] && ro[3][1] == ri[0][7];
    assert ro[3][2] == ri[1][6] && ro[3][3] == ri[1][7];
    assert ro[3][4] == ri[2][6] && ro[3][5] == ri[2][7];
    assert ro[3][6] == ri[3][6] && ro[3][7] == ri[3][7];
  }

  lemma NetworkDoubleComplexTransposes(ri: seq<Reg>)
    requires Rows(ri, 2, 4)
    ensures IsPairTranspose(NetworkDoubleComplex(ri), ri, 2)
  {
  }

  /** The in-register transpose step of each kernel body. */
  method TransposeFloat(ri: seq<Reg>) returns (ro: seq<Reg>)
    requires Rows(ri, 8, 8)
    ensures IsTranspose(ro, ri, 8)
  {
    ro := NetworkFloat(ri);
    NetworkFloatTransposes(ri);
  }

  method TransposeDouble(ri: seq<Reg>) returns (ro: seq<Reg>)
    requires Rows(ri, 4, 4)
    ensures IsTranspose(ro, ri, 4)
  {
    ro := NetworkDouble(ri);
    NetworkDoubleTransposes(ri);
  }

  method TransposeFloatComplex(ri: seq<Reg>) returns (ro: seq<Reg>)
    requires Rows(ri, 4, 8)
    ensures IsPairTranspose(ro, ri, 4)
  {
    ro := NetworkFloatComplex(ri);
    NetworkFloatComplexTransposes(ri);
  }

  method TransposeDoubleComplex(ri: seq<Reg>) returns (ro: seq<Reg>)
    requires Rows(ri, 2, 4)
    ensures IsPairTranspose(ro, ri, 2)
  {
    ro := NetworkDoubleComplex(ri);
    NetworkDoubleComplexTransposes(ri);
  }

  /** need_rescale: the transposed input is multiplied by alpha exactly for
      USE_ALPHA and USE_BOTH. */
  predicate NeedRescale(u: CoefUsage)
  {
    u == UseBoth || u == UseAlpha
  }

  /** need_update: the old output is loaded, multiplied by beta and added
      exactly for USE_BETA and USE_BOTH. */
  predicate NeedUpdate(u: CoefUsage)
  {
    u == UseBoth || u == UseBeta
  }

  /** The two flags are the two bits of the enumerator value. */
  lemma UsageFlagsAreBits(u: CoefUsage)
    ensures NeedRescale(u) <==> UsageBits(u) % 2 == 1
    ensures NeedUpdate(u) <==> UsageBits(u) / 2 == 1
  {
  }

  /** The value a kernel stores in one lane: the transposed input `x`,
      scaled when alpha is used, plus beta times the old output `y` when
      beta is used. */
  function Combine(u: CoefUsage, alpha: int, beta: int, x: int, y: int): int
  {
    var scaled := if NeedRescale(u) then x * alpha else x;
    if NeedUpdate(u) then y * beta + scaled else scaled
  }

  /** Per usage: the input alone, alpha times it, it plus beta times the
      old output, or alpha times it plus beta times the old output. */
  lemma CombineByUsage(alpha: int, beta: int, x: int, y: int)
    ensures Combine(UseNone, alpha, beta, x, y) == x
    ensures Combine(UseAlpha, alpha, beta, x, y) == alpha * x
    ensures Combine(UseBeta, alpha, beta, x, y) == x + beta * y
    ensures Combine(UseBoth, alpha, beta, x, y) == alpha * x + beta * y
  {
  }

  /** The old output matters exactly when beta is used. */
  lemma CombineReadsOutputIffUpdate(u: CoefUsage, alpha: int, x: int)
    ensures NeedUpdate(u) ==> Combine(u, alpha, 0, x, 1) != Combine(u, alpha, 1, x, 1)
    ensures !NeedUpdate(u) ==> forall beta, y :: Combine(u, alpha, beta, x, y) == Combine(u, alpha, 0, x, 0)
  {
  }

  /** Lane-wise product of every row with a coefficient register. */
  function ScaleRows(rows: seq<Reg>, coef: Reg): (res: seq<Reg>)
    requires forall k :: 0 <= k < |rows| ==> |rows[k]| == |coef|
    ensures Rows(res, |rows|, |coef|)
    ensures forall k, i :: 0 <= k < |rows| && 0 <= i < |coef| ==> res[k][i] == rows[k][i] * coef[i]
  {
    seq(|rows|, k requires 0 <= k < |rows| => MulLanes(rows[k], coef))
  }

  /** Lane-wise sum of corresponding rows. */
  function AddRows(a: seq<Reg>, b: seq<Reg>, n: nat): (res: seq<Reg>)
    requires Rows(a, |a|, n) && Rows(b, |a|, n)
    ensures Rows(res, |a|, n)
    ensures forall k, i :: 0 <= k < |a| && 0 <= i < n ==> res[k][i] == a[k][i] + b[k][i]
  {
    seq(|a|, k requires 0 <= k < |a| => AddLanes(a[k], b[k]))
  }

  /** reg_coef for float and FloatComplex: the real coefficient in all
      eight float lanes. */
  function RegCoefPs(coef: int): (r: Reg)
    ensures |r| == 8 && forall i :: 0 <= i < 8 ==> r[i] == coef
  {
    Set1(coef, 8)
  }

  /** reg_coef for double and DoubleComplex: the real coefficient in all
      four double lanes. */
  function RegCoefPd(coef: int): (r: Reg)
    ensures |r| == 4 && forall i :: 0 <= i < 4 ==> r[i] == coef
  {
    Set1(coef, 4)
  }

  /** The post-network steps of every kernel: rescale when alpha is used,
      then add beta times the old output rows when beta is used. The result
      lane is Combine of the transposed lane and the old output lane. */
  lemma FinishSteps(u: CoefUsage, t: seq<Reg>, o: seq<Reg>, alpha: Reg, beta: Reg, count: nat)
    requires Rows(t, count, |alpha|) && Rows(o, count, |alpha|) && |beta| == |alpha|
    ensures var scaled := if NeedRescale(u) then ScaleRows(t, alpha) else t;
            var res := if NeedUpdate(u) then AddRows(ScaleRows(o, beta), scaled, |alpha|) else scaled;
            Rows(res, count, |alpha|)
            && forall k, i :: 0 <= k < count && 0 <= i < |alpha| ==>
                 res[k][i] == Combine(u, alpha[i], beta[i], t[k][i], o[k][i])
  {
  }

  /** KernelTransAvx<float, USAGE, KERNEL_FULL>::operator(): an 8 x 8 tile.
      Output element c of row r is Combine of input element r of row c;
      no other output cell changes. */
  method KernelFloat(usage: CoefUsage, input: array<int>, inOff: nat, output: array<int>, outOff: nat,
                     inStride: nat, outStride: nat, regAlpha: Reg, regBeta: Reg)
    requires input != output
    requires |regAlpha| == 8 && |regBeta| == 8
    requires TileFits(input.Length, inOff, inStride, 8, 8)
    requires TileFits(output.Length, outOff, outStride, 8, 8)
    requires 8 <= outStride
    modifies output
    ensures forall r: nat, c :: 0 <= r < 8 && 0 <= c < 8 ==>
              output[Addr(outOff, outStride, r, c)]
              == Combine(usage, regAlpha[c], regBeta[c], input[Addr(inOff, inStride, c, r)],
                         old(output[Addr(outOff, outStride, r, c)]))
    ensures forall i :: 0 <= i < output.Length && !InTile(i, outOff, outStride, 8, 8) ==> output[i] == old(output[i])
  {
    var regInput := LoadRows(input, inOff, inStride, 8, 8);
    regInput := TransposeFloat(regInput);
    ghost var transposed := regInput;
    ghost var oldRows := LoadRows(output, outOff, outStride, 8, 8);
    FinishSteps(usage, transposed, oldRows, regAlpha, regBeta, 8);
    if NeedRescale(usage) {
      regInput := ScaleRows(regInput, regAlpha);
    }
    if NeedUpdate(usage) {
      var regOutput := LoadRows(output, outOff, outStride, 8, 8);
      regOutput := ScaleRows(regOutput, regBeta);
      regInput := AddRows(regOutput, regInput, 8);
    }
    StoreRows(output, outOff, outStride, regInput, 8);
  }

  /** KernelTransAvx<double, USAGE, KERNEL_FULL>::operator(): a 4 x 4 tile. */
  method KernelDouble(usage: CoefUsage, input: array<int>, inOff: nat, output: array<int>, outOff: nat,
                      inStride: nat, outStride: nat, regAlpha: Reg, regBeta: Reg)
    requires input != output
    requires |regAlpha| == 4 && |regBeta| == 4
    requires TileFits(input.Length, inOff, inStride, 4, 4)
    requires TileFits(output.Length, outOff, outStride, 4, 4)
    requires 4 <= outStride
    modifies output
    ensures forall r: nat, c :: 0 <= r < 4 && 0 <= c < 4 ==>
              output[Addr(outOff, outStride, r, c)]
              == Combine(usage, regAlpha[c], regBeta[c], input[Addr(inOff, inStride, c, r)],
                         old(output[Addr(outOff, outStride, r, c)]))
    ensures forall i :: 0 <= i < output.Length && !InTile(i, outOff, outStride, 4, 4) ==> output[i] == old(output[i])
  {
    var regInput := LoadRows(input, inOff, inStride, 4, 4);
    regInput := TransposeDouble(regInput);
    ghost var transposed := regInput;
    ghost var oldRows := LoadRows(output, outOff, outStride, 4, 4);
    FinishSteps(usage, transposed, oldRows, regAlpha, regBeta, 4);
    if NeedRescale(usage) {
      regInput := ScaleRows(regInput, regAlpha);
    }
    if NeedUpdate(usage) {
      var regOutput := LoadRows(output, outOff, outStride, 4, 4);
      regOutput := ScaleRows(regOutput, regBeta);
      regInput := AddRows(regOutput, regInput, 4);
    }
    StoreRows(output, outOff, outStride, regInput, 4);
  }

  /** A row of complex elements seen as scalar lanes, as the
      reinterpret_cast in the complex kernels presents it: real part, then
      imaginary part, element after element. */
  function Flatten(cs: seq<Complex>): (v: Reg)
    ensures |v| == 2 * |cs|
    ensures forall k :: 0 <= k < |cs| ==> v[2 * k] == cs[k].re && v[2 * k + 1] == cs[k].im
  {
    seq(2 * |cs|, j requires 0 <= j < 2 * |cs| => if j % 2 == 0 then cs[j / 2].re else cs[j / 2].im)
  }

  /** Scalar lanes read back as complex elements, two lanes each. */
  function Unflatten(v: Reg): (cs: seq<Complex>)
    requires |v| % 2 == 0
    ensures |cs| == |v| / 2
    ensures forall k :: 0 <= k < |cs| ==> cs[k] == Complex(v[2 * k], v[2 * k + 1])
  {
    seq(|v| / 2, k requires 0 <= k < |v| / 2 => Complex(v[2 * k], v[2 * k + 1]))
  }

  /** Viewing complex data as lanes and back loses nothing. */
  lemma UnflattenFlatten(cs: seq<Complex>)
    ensures Unflatten(Flatten(cs)) == cs
  {
  }

  function FlattenRows(rows: seq<seq<Complex>>, n: nat): (res: seq<Reg>)
    requires forall k :: 0 <= k < |rows| ==> |rows[k]| == n
    ensures Rows(res, |rows|, 2 * n)
    ensures forall k :: 0 <= k < |rows| ==> res[k] == Flatten(rows[k])
  {
    seq(|rows|, k requires 0 <= k < |rows| => Flatten(rows[k]))
  }

  function UnflattenRows(rows: seq<Reg>, n: nat): (res: seq<seq<Complex>>)
    requires Rows(rows, |rows|, 2 * n)
    ensures |res| == |rows|
    ensures forall k :: 0 <= k < |rows| ==> |res[k]| == n && res[k] == Unflatten(rows[k])
  {
    seq(|rows|, k requires 0 <= k < |rows| => Unflatten(rows[k]))
  }

  /** The element a complex kernel stores: Combine on the real lane and on
      the imaginary lane, each with its own coefficient lanes. */
  function CombineComplex(u: CoefUsage, alphaRe: int, alphaIm: int, betaRe: int, betaIm: int,
                          x: Complex, y: Complex): Complex
  {
    Complex(Combine(u, alphaRe, betaRe, x.re, y.re), Combine(u, alphaIm, betaIm, x.im, y.im))
  }

  /** The cell-level reading of a complex kernel's register steps: when the
      lanes `t` are the pair transpose of the loaded input rows and `res`
      combines them lane by lane with the old output rows, complex element c
      of result row r combines input element r of row c with old output
      element c of row r. */
  lemma ComplexCells(u: CoefUsage, loaded: seq<seq<Complex>>, oldRows: seq<seq<Complex>>,
                     t: seq<Reg>, res: seq<Reg>, alpha: Reg, beta: Reg, n: nat)
    requires |loaded| == n && |oldRows| == n
    requires forall k :: 0 <= k < n ==> |loaded[k]| == n && |oldRows[k]| == n
    requires |alpha| == 2 * n && |beta| == 2 * n
    requires IsPairTranspose(t, FlattenRows(loaded, n), n)
    requires Rows(res, n, 2 * n)
    requires forall k, i :: 0 <= k < n && 0 <= i < 2 * n ==>
               res[k][i] == Combine(u, alpha[i], beta[i], t[k][i], FlattenRows(oldRows, n)[k][i])
    ensures forall r, c :: 0 <= r < n && 0 <= c < n ==>
              UnflattenRows(res, n)[r][c]
              == CombineComplex(u, alpha[2 * c], alpha[2 * c + 1], beta[2 * c], beta[2 * c + 1], loaded[c][r], oldRows[r][c])
  {
    var fl := FlattenRows(loaded, n);
    var fo := FlattenRows(oldRows, n);
    forall r, c | 0 <= r < n && 0 <= c < n
      ensures UnflattenRows(res, n)[r][c]
              == CombineComplex(u, alpha[2 * c], alpha[2 * c + 1], beta[2 * c], beta[2 * c + 1], loaded[c][r], oldRows[r][c])
    {
      assert fl[c] == Flatten(loaded[c]) && fo[r] == Flatten(oldRows[r]);
      assert t[r][2 * c] == fl[c][2 * r] == loaded[c][r].re;
      assert t[r][2 * c + 1] == fl[c][2 * r + 1] == loaded[c][r].im;
      assert fo[r][2 * c] == oldRows[r][c].re && fo[r][2 * c + 1] == oldRows[r][c].im;
      assert UnflattenRows(res, n)[r] == Unflatten(res[r]);
    }
  }

  /** KernelTransAvx<FloatComplex, USAGE, KERNEL_FULL>::operator(): a 4 x 4
      tile of complex elements, eight float lanes per row. Output element c
      of row r is CombineComplex of input element r of row c. */
  method KernelFloatComplex(usage: CoefUsage, input: array<Complex>, inOff: nat, output: array<Complex>,
                            outOff: nat, inStride: nat, outStride: nat, regAlpha: Reg, regBeta: Reg)
    requires input != output
    requires |regAlpha| == 8 && |regBeta| == 8
    requires TileFits(input.Length, inOff, inStride, 4, 4)
    requires TileFits(output.Length, outOff, outStride, 4, 4)
    requires 4 <= outStride
    modifies output
    ensures forall r: nat, c :: 0 <= r < 4 && 0 <= c < 4 ==>
              output[Addr(outOff, outStride, r, c)]
              == CombineComplex(usage, regAlpha[2 * c], regAlpha[2 * c + 1], regBeta[2 * c], regBeta[2 * c + 1],
                                input[Addr(inOff, inStride, c, r)], old(output[Addr(outOff, outStride, r, c)]))
    ensures forall i :: 0 <= i < output.Length && !InTile(i, outOff, outStride, 4, 4) ==> output[i] == old(output[i])
  {
    ghost var loaded: seq<seq<Complex>> := LoadRows(input, inOff, inStride, 4, 4);
    ghost var oldRows := LoadRows(output, outOff, outStride, 4, 4);
    var regInput := FlattenRows(LoadRows(input, inOff, inStride, 4, 4), 4);
    regInput := TransposeFloatComplex(regInput);
    ghost var transposed := regInput;
    FinishSteps(usage, transposed, FlattenRows(oldRows, 4), regAlpha, regBeta, 4);
    if NeedRescale(usage) {
      regInput := ScaleRows(regInput, regAlpha);
    }
    if NeedUpdate(usage) {
      var regOutput := FlattenRows(LoadRows(output, outOff, outStride, 4, 4), 4);
      regOutput := ScaleRows(regOutput, regBeta);
      regInput := AddRows(regOutput, regInput, 8);
    }
    ComplexCells(usage, loaded, oldRows, transposed, regInput, regAlpha, regBeta, 4);
    StoreRows(output, outOff, outStride, UnflattenRows(regInput, 4), 4);
  }

  /** KernelTransAvx<DoubleComplex, USAGE, KERNEL_FULL>::operator(): a 2 x 2
      tile of complex elements, four double lanes per row. */
  method KernelDoubleComplex(usage: CoefUsage, input: array<Complex>, inOff: nat, output: array<Complex>,
                             outOff: nat, inStride: nat, outStride: nat, regAlpha: Reg, regBeta: Reg)
    requires input != output
    requires |regAlpha| == 4 && |regBeta| == 4
    requires TileFits(input.Length, inOff, inStride, 2, 2)
    requires TileFits(output.Length, outOff, outStride, 2, 2)
    requires 2 <= outStride
    modifies output
    ensures forall r: nat, c :: 0 <= r < 2 && 0 <= c < 2 ==>
              output[Addr(outOff, outStride, r, c)]
              == CombineComplex(usage, regAlpha[2 * c], regAlpha[2 * c + 1], regBeta[2 * c], regBeta[2 * c + 1],
                                input[Addr(inOff, inStride, c, r)], old(output[Addr(outOff, outStride, r, c)]))
    ensures forall i :: 0 <= i < output.Length && !InTile(i, outOff, outStride, 2, 2) ==> output[i] == old(output[i])
  {
    ghost var loaded: seq<seq<Complex>> := LoadRows(input, inOff, inStride, 2, 2);
    ghost var oldRows := LoadRows(output, outOff, outStride, 2, 2);
    var regInput := FlattenRows(LoadRows(input, inOff, inStride, 2, 2), 2);
    regInput := TransposeDoubleComplex(regInput);
    ghost var transposed := regInput;
    FinishSteps(usage, transposed, FlattenRows(oldRows, 2), regAlpha, regBeta, 2);
    if NeedRescale(usage) {
      regInput := ScaleRows(regInput, regAlpha);
    }
    if NeedUpdate(usage) {
      var regOutput := FlattenRows(LoadRows(output, outOff, outStride, 2, 2), 2);
      regOutput := ScaleRows(regOutput, regBeta);
      regInput := AddRows(regOutput, regInput, 4);
    }
    ComplexCells(usage, loaded, oldRows, transposed, regInput, regAlpha, regBeta, 2);
    StoreRows(output, outOff, outStride, UnflattenRows(regInput, 2), 2);
  }
}
