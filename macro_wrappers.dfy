/*
 * The wrapper loops of the hptt namespace: MacroTransLinear drives a line
 * kernel over a size_kn_outld x size_kn_inld grid of strided offsets, and
 * MacroTransScalar performs one scaled element copy per grid point.
 *
 * Strides are signed (TensorIdx); pointers are an array and an offset.
 */
module MacroWrappers {
  import opened MacroKernel

  /** The loop configured by set_wrapper_loop. */
  datatype WrapperLoop = WrapperLoop(strideInInld: int, strideInOutld: int,
                                     strideOutInld: int, strideOutOutld: int,
                                     sizeKnInld: nat, sizeKnOutld: nat)

  /** set_wrapper_loop's treatment of a size: zero becomes one. */
  function AtLeastOne(n: nat): (r: nat)
    ensures r >= 1
    ensures n > 0 ==> r == n
    ensures n == 0 ==> r == 1
  {
    if n > 0 then n else 1
  }

  // ---------------------------------------------------------------------
  // MacroTransLinear

  /** One kernel_.exec call: input and output element offsets, size_trans
      and size_pad. */
  datatype LineCall = LineCall(inOff: int, outOff: int, sizeTrans: int, sizePad: int)

  /** The call for grid point (o, i): offset_in + stride_in_inld * i into
      the input, offset_out + stride_out_inld * i into the output. */
  function LineCallAt(l: WrapperLoop, inBase: int, outBase: int, sizeTrans: int, o: nat, i: nat): LineCall
  {
    LineCall(inBase + l.strideInOutld * o + l.strideInInld * i,
             outBase + l.strideOutOutld * o + l.strideOutInld * i, sizeTrans, 0)
  }

  /** The calls for i = 0 .. n - 1 of row o. */
  function LineRow(l: WrapperLoop, inBase: int, outBase: int, sizeTrans: int, o: nat, n: nat): seq<LineCall>
  {
    if n == 0 then [] else LineRow(l, inBase, outBase, sizeTrans, o, n - 1) + [LineCallAt(l, inBase, outBase, sizeTrans, o, n - 1)]
  }

  /** The calls of rows 0 .. m - 1, in loop order. */
  function LineCalls(l: WrapperLoop, inBase: int, outBase: int, sizeTrans: int, m: nat): seq<LineCall>
  {
    if m == 0 then [] else LineCalls(l, inBase, outBase, sizeTrans, m - 1) + LineRow(l, inBase, outBase, sizeTrans, m - 1, l.sizeKnInld)
  }

  lemma {:induction false} LineRowIndex(l: WrapperLoop, inBase: int, outBase: int, sizeTrans: int, o: nat, n: nat)
    ensures |LineRow(l, inBase, outBase, sizeTrans, o, n)| == n
    ensures forall i :: 0 <= i < n ==> LineRow(l, inBase, outBase, sizeTrans, o, n)[i] == LineCallAt(l, inBase, outBase, sizeTrans, o, i)
  {
    if n > 0 {
      LineRowIndex(l, inBase, outBase, sizeTrans, o, n - 1);
    }
  }

  /** exec issues size_kn_outld * size_kn_inld calls; call k is grid point
      (k / size_kn_inld, k % size_kn_inld), with the inner index running
      fastest, and always passes size_pad = 0. */
  lemma {:induction false} LineCallsIndex(l: WrapperLoop, inBase: int, outBase: int, sizeTrans: int, m: nat)
    requires l.sizeKnInld >= 1
    ensures |LineCalls(l, inBase, outBase, sizeTrans, m)| == m * l.sizeKnInld
    ensures forall k :: 0 <= k < m * l.sizeKnInld ==>
              LineCalls(l, inBase, outBase, sizeTrans, m)[k]
              == LineCall(inBase + l.strideInOutld * (k / l.sizeKnInld) + l.strideInInld * (k % l.sizeKnInld),
                          outBase + l.strideOutOutld * (k / l.sizeKnInld) + l.strideOutInld * (k % l.sizeKnInld),
                          sizeTrans, 0)
  {
    var n := l.sizeKnInld;
    if m > 0 {
      LineCallsIndex(l, inBase, outBase, sizeTrans, m - 1);
      LineRowIndex(l, inBase, outBase, sizeTrans, m - 1, n);
      var c := LineCalls(l, inBase, outBase, sizeTrans, m);
      assert (m - 1) * n + n == m * n;
      forall k | 0 <= k < m * n
        ensures c[k] == LineCallAt(l, inBase, outBase, sizeTrans, k / n, k % n)
      {
        if k >= (m - 1) * n {
          DivModOf(k, m - 1, k - (m - 1) * n, n);
        }
      }
    }
  }

  /** The line kernel of MacroTransLinear; only its coefficients are
      modelled, its exec is recorded as a LineCall. */
  class LineKernel {
    var alpha: int
    var beta: int

    constructor()
      ensures alpha == 0 && beta == 0
    {
      alpha := 0;
      beta := 0;
    }

    method SetCoef(alpha: int, beta: int)
      modifies this
      ensures this.alpha == alpha && this.beta == beta
    {
      this.alpha := alpha;
      this.beta := beta;
    }
  }

  class MacroTransLinear {
    const kernel: LineKernel
    var strideInInld: int
    var strideInOutld: int
    var strideOutInld: int
    var strideOutOutld: int
    var sizeKnInld: nat
    var sizeKnOutld: nat

    function Loop(): WrapperLoop
      reads this
    {
      WrapperLoop(strideInInld, strideInOutld, strideOutInld, strideOutOutld, sizeKnInld, sizeKnOutld)
    }

    /** Both grid sizes are at least one. */
    predicate Valid()
      reads this
    {
      sizeKnInld >= 1 && sizeKnOutld >= 1
    }

    /** Every stride and size starts at 1. */
    constructor()
      ensures Valid()
      ensures Loop() == WrapperLoop(1, 1, 1, 1, 1, 1)
      ensures fresh(kernel)
    {
      kernel := new LineKernel();
      strideInInld, strideInOutld, strideOutInld, strideOutOutld := 1, 1, 1, 1;
      sizeKnInld, sizeKnOutld := 1, 1;
    }

    method SetCoef(alpha: int, beta: int)
      modifies kernel
      ensures kernel.alpha == alpha && kernel.beta == beta
    {
      kernel.SetCoef(alpha, beta);
    }

    /** set_wrapper_loop: the strides are stored unchanged, a zero size
        becomes one. */
    method SetWrapperLoop(strideInInld: int, strideInOutld: int, strideOutInld: int, strideOutOutld: int,
                          sizeKnInld: nat, sizeKnOutld: nat)
      modifies this
      ensures Valid()
      ensures Loop() == WrapperLoop(strideInInld, strideInOutld, strideOutInld, strideOutOutld,
                                    AtLeastOne(sizeKnInld), AtLeastOne(sizeKnOutld))
    {
      this.strideInInld := strideInInld;
      this.strideInOutld := strideInOutld;
      this.strideOutInld := strideOutInld;
      this.strideOutOutld := strideOutOutld;
      this.sizeKnInld := if sizeKnInld > 0 then sizeKnInld else 1;
      this.sizeKnOutld := if sizeKnOutld > 0 then sizeKnOutld else 1;
    }

    /** exec: the kernel calls, in the order the two loops issue them. */
    method Exec(inBase: int, outBase: int, sizeTrans: int, sizePad: int) returns (calls: seq<LineCall>)
      ensures calls == LineCalls(Loop(), inBase, outBase, sizeTrans, sizeKnOutld)
    {
      calls := [];
      var outIdx: nat := 0;
      while outIdx < sizeKnOutld
        invariant outIdx <= sizeKnOutld
        invariant calls == LineCalls(Loop(), inBase, outBase, sizeTrans, outIdx)
      {
        var offsetIn := strideInOutld * outIdx;
        var offsetOut := strideOutOutld * outIdx;
        var inIdx: nat := 0;
        ghost var before := calls;
        while inIdx < sizeKnInld
          invariant inIdx <= sizeKnInld
          invariant calls == before + LineRow(Loop(), inBase, outBase, sizeTrans, outIdx, inIdx)
        {
          calls := calls + [LineCall(inBase + offsetIn + strideInInld * inIdx,
                                     outBase + offsetOut + strideOutInld * inIdx, sizeTrans, 0)];
          inIdx := inIdx + 1;
        }
        outIdx := outIdx + 1;
      }
    }
  }

  // ---------------------------------------------------------------------
  // MacroTransScalar

  /** k * s for a signed stride, unfolded one step at a time so that the
      addresses of a concrete loop evaluate without nonlinear arithmetic. */
  function Scaled(k: nat, s: int): int
  {
    if k == 0 then 0 else Scaled(k - 1, s) + s
  }

  lemma {:induction false} ScaledIsProduct(k: nat, s: int)
    ensures Scaled(k, s) == s * k
  {
    if k > 0 {
      ScaledIsProduct(k - 1, s);
    }
  }

  /** Where grid point (o, i) reads the input:
      data_in + offset_in + stride_in_inld * i. */
  function InAddr(l: WrapperLoop, inOff: int, o: nat, i: nat): int
  {
    inOff + Scaled(o, l.strideInOutld) + Scaled(i, l.strideInInld)
  }

  /** Where grid point (o, i) reads the old output:
      data_out + offset_out + stride_out_inld * i. */
  function OutAddr(l: WrapperLoop, outOff: int, o: nat, i: nat): int
  {
    outOff + Scaled(o, l.strideOutOutld) + Scaled(i, l.strideOutInld)
  }

  /** Where grid point (o, i) writes: as written, data_out + offset_in +
      stride_out_inld * i; corrected, the cell OutAddr reads. */
  function WriteAddr(l: WrapperLoop, outOff: int, o: nat, i: nat, corrected: bool): int
  {
    if corrected then OutAddr(l, outOff, o, i) else outOff + Scaled(o, l.strideInOutld) + Scaled(i, l.strideOutInld)
  }

  /** Every access of the loop lies inside its array; the old output is
      read only when the output is updated. */
  predicate StepsInRange(l: WrapperLoop, update: bool, corrected: bool, inLen: nat, outLen: nat, inOff: int, outOff: int)
  {
    forall o: nat, i: nat :: o < l.sizeKnOutld && i < l.sizeKnInld ==>
      0 <= InAddr(l, inOff, o, i) < inLen
      && 0 <= WriteAddr(l, outOff, o, i, corrected) < outLen
      && (update ==> 0 <= OutAddr(l, outOff, o, i) < outLen)
  }

  /** One assignment of the loop body. */
  function Step(l: WrapperLoop, sc: Scaling, corrected: bool, inp: seq<int>, out: seq<int>,
                inOff: int, outOff: int, o: nat, i: nat): (r: seq<int>)
    requires 0 <= InAddr(l, inOff, o, i) < |inp| && 0 <= WriteAddr(l, outOff, o, i, corrected) < |out|
    requires sc.update ==> 0 <= OutAddr(l, outOff, o, i) < |out|
    ensures |r| == |out|
  {
    var prev := if sc.update then out[OutAddr(l, outOff, o, i)] else 0;
    out[WriteAddr(l, outOff, o, i, corrected) := sc.Apply(inp[InAddr(l, inOff, o, i)], prev)]
  }

  /** Grid points (o, 0) .. (o, n - 1), in order. */
  function RunRow(l: WrapperLoop, sc: Scaling, corrected: bool, inp: seq<int>, out: seq<int>,
                  inOff: int, outOff: int, o: nat, n: nat): (r: seq<int>)
    requires o < l.sizeKnOutld && n <= l.sizeKnInld
    requires StepsInRange(l, sc.update, corrected, |inp|, |out|, inOff, outOff)
    ensures |r| == |out|
    decreases n
  {
    if n == 0 then out
    else Step(l, sc, corrected, inp, RunRow(l, sc, corrected, inp, out, inOff, outOff, o, n - 1), inOff, outOff, o, n - 1)
  }

  /** Rows 0 .. m - 1 of the grid, in order. */
  function Run(l: WrapperLoop, sc: Scaling, corrected: bool, inp: seq<int>, out: seq<int>,
               inOff: int, outOff: int, m: nat): (r: seq<int>)
    requires m <= l.sizeKnOutld
    requires StepsInRange(l, sc.update, corrected, |inp|, |out|, inOff, outOff)
    ensures |r| == |out|
  {
    if m == 0 then out
    else RunRow(l, sc, corrected, inp, Run(l, sc, corrected, inp, out, inOff, outOff, m - 1), inOff, outOff, m - 1, l.sizeKnInld)
  }

  /** Distinct grid points write distinct output cells. */
  predicate OutInjective(l: WrapperLoop, outOff: int)
  {
    forall o1: nat, i1: nat, o2: nat, i2: nat ::
      (o1 < l.sizeKnOutld && i1 < l.sizeKnInld && o2 < l.sizeKnOutld && i2 < l.sizeKnInld &&
       OutAddr(l, outOff, o1, i1) == OutAddr(l, outOff, o2, i2)) ==> o1 == o2 && i1 == i2
  }

  ghost predicate HitInRow(l: WrapperLoop, outOff: int, o: nat, n: nat, j: int)
  {
    exists i: nat :: i < n && j == OutAddr(l, outOff, o, i)
  }

  ghost predicate HitBefore(l: WrapperLoop, outOff: int, m: nat, j: int)
  {
    exists o: nat, i: nat :: o < m && i < l.sizeKnInld && j == OutAddr(l, outOff, o, i)
  }

  /** A cell row o does not hit keeps its value through the row. */
  lemma {:induction false} RowMiss(l: WrapperLoop, sc: Scaling, inp: seq<int>, out: seq<int>,
                                   inOff: int, outOff: int, o: nat, n: nat, j: int)
    requires o < l.sizeKnOutld && n <= l.sizeKnInld
    requires StepsInRange(l, sc.update, true, |inp|, |out|, inOff, outOff)
    requires 0 <= j < |out| && !HitInRow(l, outOff, o, n, j)
    ensures RunRow(l, sc, true, inp, out, inOff, outOff, o, n)[j] == out[j]
  {
    if n > 0 {
      assert j != OutAddr(l, outOff, o, n - 1);
      RowMiss(l, sc, inp, out, inOff, outOff, o, n - 1, j);
    }
  }

  /** With distinct output cells, row o leaves the documented value in the
      cell of each of its grid points. */
  lemma {:induction false} RowHit(l: WrapperLoop, sc: Scaling, inp: seq<int>, out: seq<int>,
                                  inOff: int, outOff: int, o: nat, n: nat, i: nat)
    requires o < l.sizeKnOutld && n <= l.sizeKnInld && i < n
    requires StepsInRange(l, sc.update, true, |inp|, |out|, inOff, outOff) && OutInjective(l, outOff)
    ensures RunRow(l, sc, true, inp, out, inOff, outOff, o, n)[OutAddr(l, outOff, o, i)]
            == sc.Apply(inp[InAddr(l, inOff, o, i)], out[OutAddr(l, outOff, o, i)])
  {
    var w := OutAddr(l, outOff, o, i);
    if i == n - 1 {
      RowMiss(l, sc, inp, out, inOff, outOff, o, n - 1, w);
    } else {
      assert w != OutAddr(l, outOff, o, n - 1);
      RowHit(l, sc, inp, out, inOff, outOff, o, n - 1, i);
    }
  }

  /** A cell no row before m hits keeps its value. */
  lemma {:induction false} RunMiss(l: WrapperLoop, sc: Scaling, inp: seq<int>, out: seq<int>,
                                   inOff: int, outOff: int, m: nat, j: int)
    requires m <= l.sizeKnOutld
    requires StepsInRange(l, sc.update, true, |inp|, |out|, inOff, outOff)
    requires 0 <= j < |out| && !HitBefore(l, outOff, m, j)
    ensures Run(l, sc, true, inp, out, inOff, outOff, m)[j] == out[j]
  {
    if m > 0 {
      var prev := Run(l, sc, true, inp, out, inOff, outOff, m - 1);
      assert !HitInRow(l, outOff, m - 1, l.sizeKnInld, j);
      RowMiss(l, sc, inp, prev, inOff, outOff, m - 1, l.sizeKnInld, j);
      RunMiss(l, sc, inp, out, inOff, outOff, m - 1, j);
    }
  }

  /** With distinct output cells, rows 0 .. m - 1 leave the documented
      value in the cell of each of their grid points. */
  lemma {:induction false} RunHit(l: WrapperLoop, sc: Scaling, inp: seq<int>, out: seq<int>,
                                  inOff: int, outOff: int, m: nat, o: nat, i: nat)
    requires m <= l.sizeKnOutld && o < m && i < l.sizeKnInld
    requires StepsInRange(l, sc.update, true, |inp|, |out|, inOff, outOff) && OutInjective(l, outOff)
    ensures Run(l, sc, true, inp, out, inOff, outOff, m)[OutAddr(l, outOff, o, i)]
            == sc.Apply(inp[InAddr(l, inOff, o, i)], out[OutAddr(l, outOff, o, i)])
  {
    var w := OutAddr(l, outOff, o, i);
    var prev := Run(l, sc, true, inp, out, inOff, outOff, m - 1);
    if o == m - 1 {
      RowHit(l, sc, inp, prev, inOff, outOff, m - 1, l.sizeKnInld, i);
      RunMiss(l, sc, inp, out, inOff, outOff, m - 1, w);
    } else {
      assert !HitInRow(l, outOff, m - 1, l.sizeKnInld, w);
      RowMiss(l, sc, inp, prev, inOff, outOff, m - 1, l.sizeKnInld, w);
      RunHit(l, sc, inp, out, inOff, outOff, m - 1, o, i);
    }
  }

  /** With distinct output cells, the corrected loop performs the
      documented update on every grid point: out(o, i) becomes
      alpha * in(o, i) (+ beta * out(o, i)), and no other cell changes. */
  lemma RunCorrected(l: WrapperLoop, sc: Scaling, inp: seq<int>, out: seq<int>, inOff: int, outOff: int)
    requires StepsInRange(l, sc.update, true, |inp|, |out|, inOff, outOff) && OutInjective(l, outOff)
    ensures forall o: nat, i: nat :: o < l.sizeKnOutld && i < l.sizeKnInld ==>
              Run(l, sc, true, inp, out, inOff, outOff, l.sizeKnOutld)[OutAddr(l, outOff, o, i)]
              == sc.Apply(inp[InAddr(l, inOff, o, i)], out[OutAddr(l, outOff, o, i)])
    ensures forall j :: 0 <= j < |out| && !HitBefore(l, outOff, l.sizeKnOutld, j) ==>
              Run(l, sc, true, inp, out, inOff, outOff, l.sizeKnOutld)[j] == out[j]
  {
    forall o: nat, i: nat | o < l.sizeKnOutld && i < l.sizeKnInld
      ensures Run(l, sc, true, inp, out, inOff, outOff, l.sizeKnOutld)[OutAddr(l, outOff, o, i)]
              == sc.Apply(inp[InAddr(l, inOff, o, i)], out[OutAddr(l, outOff, o, i)])
    {
      RunHit(l, sc, inp, out, inOff, outOff, l.sizeKnOutld, o, i);
    }
    forall j | 0 <= j < |out| && !HitBefore(l, outOff, l.sizeKnOutld, j)
      ensures Run(l, sc, true, inp, out, inOff, outOff, l.sizeKnOutld)[j] == out[j]
    {
      RunMiss(l, sc, inp, out, inOff, outOff, l.sizeKnOutld, j);
    }
  }

  /** The loop as written agrees with the corrected one exactly when it
      does not matter which outer stride addresses the output row, e.g.
      when stride_in_outld == stride_out_outld. */
  lemma {:induction false} AsWrittenMatchesWhenStridesAgree(l: WrapperLoop, sc: Scaling, inp: seq<int>, out: seq<int>,
                                                            inOff: int, outOff: int, m: nat)
    requires m <= l.sizeKnOutld && l.strideInOutld == l.strideOutOutld
    requires StepsInRange(l, sc.update, false, |inp|, |out|, inOff, outOff)
    ensures StepsInRange(l, sc.update, true, |inp|, |out|, inOff, outOff)
    ensures Run(l, sc, false, inp, out, inOff, outOff, m) == Run(l, sc, true, inp, out, inOff, outOff, m)
  {
    assert forall o: nat, i: nat :: WriteAddr(l, outOff, o, i, false) == WriteAddr(l, outOff, o, i, true);
    if m > 0 {
      AsWrittenMatchesWhenStridesAgree(l, sc, inp, out, inOff, outOff, m - 1);
      RowMatchesWhenStridesAgree(l, sc, inp, Run(l, sc, false, inp, out, inOff, outOff, m - 1),
                                 inOff, outOff, m - 1, l.sizeKnInld);
    }
  }

  lemma {:induction false} RowMatchesWhenStridesAgree(l: WrapperLoop, sc: Scaling, inp: seq<int>, out: seq<int>,
                                                      inOff: int, outOff: int, o: nat, n: nat)
    requires o < l.sizeKnOutld && n <= l.sizeKnInld && l.strideInOutld == l.strideOutOutld
    requires StepsInRange(l, sc.update, false, |inp|, |out|, inOff, outOff)
    ensures StepsInRange(l, sc.update, true, |inp|, |out|, inOff, outOff)
    ensures RunRow(l, sc, false, inp, out, inOff, outOff, o, n) == RunRow(l, sc, true, inp, out, inOff, outOff, o, n)
  {
    assert forall o: nat, i: nat :: WriteAddr(l, outOff, o, i, false) == WriteAddr(l, outOff, o, i, true);
    if n > 0 {
      RowMatchesWhenStridesAgree(l, sc, inp, out, inOff, outOff, o, n - 1);
    }
  }

  /** Two outer steps of one element each, input outer stride 2 and output
      outer stride 1, over 3-element arrays, with the output updated. As
      written, the second assignment goes to cell 2 (offset_in = 2) and
      reads cell 1: cell 1 of the two-cell block keeps its old value and
      cell 2, outside the block, is overwritten. The corrected loop updates
      cells 0 and 1 and leaves cell 2 alone. */
  lemma ScalarAsWrittenCounterexample(l: WrapperLoop, sc: Scaling, inp: seq<int>, out: seq<int>)
    requires l.strideInOutld == 2 && l.strideOutOutld == 1 && l.sizeKnInld == 1 && l.sizeKnOutld == 2
    requires sc.update && |inp| == 3 && |out| == 3
    ensures StepsInRange(l, true, false, 3, 3, 0, 0)
    ensures StepsInRange(l, true, true, 3, 3, 0, 0)
    ensures Run(l, sc, false, inp, out, 0, 0, 2) == [sc.Apply(inp[0], out[0]), out[1], sc.Apply(inp[2], out[1])]
    ensures Run(l, sc, true, inp, out, 0, 0, 2) == [sc.Apply(inp[0], out[0]), sc.Apply(inp[2], out[1]), out[2]]
  {
    assert InAddr(l, 0, 0, 0) == 0 && OutAddr(l, 0, 0, 0) == 0 && WriteAddr(l, 0, 0, 0, false) == 0;
    assert InAddr(l, 0, 1, 0) == 2 && OutAddr(l, 0, 1, 0) == 1 && WriteAddr(l, 0, 1, 0, false) == 2;
    forall c: bool, o: nat, i: nat | o < l.sizeKnOutld && i < l.sizeKnInld
      ensures 0 <= InAddr(l, 0, o, i) < 3 && 0 <= WriteAddr(l, 0, o, i, c) < 3 && 0 <= OutAddr(l, 0, o, i) < 3
    {
      assert i == 0 && (o == 0 || o == 1);
    }
    var first := Step(l, sc, false, inp, out, 0, 0, 0, 0);
    assert Run(l, sc, false, inp, out, 0, 0, 1) == first;
    var firstC := Step(l, sc, true, inp, out, 0, 0, 0, 0);
    assert Run(l, sc, true, inp, out, 0, 0, 1) == firstC;
  }

  class MacroTransScalar {
    const update: bool
    var alpha: int
    var beta: int
    var strideInInld: int
    var strideInOutld: int
    var strideOutInld: int
    var strideOutOutld: int
    var sizeKnInld: nat
    var sizeKnOutld: nat

    function Loop(): WrapperLoop
      reads this
    {
      WrapperLoop(strideInInld, strideInOutld, strideOutInld, strideOutOutld, sizeKnInld, sizeKnOutld)
    }

    function Scale(): Scaling
      reads this
    {
      Scaling(update, alpha, beta)
    }

    constructor(update: bool)
      ensures this.update == update
      ensures Loop() == WrapperLoop(1, 1, 1, 1, 1, 1)
    {
      this.update := update;
      alpha, beta := 0, 0;
      strideInInld, strideInOutld, strideOutInld, strideOutOutld := 1, 1, 1, 1;
      sizeKnInld, sizeKnOutld := 1, 1;
    }

    method SetCoef(alpha: int, beta: int)
      modifies this
      ensures this.alpha == alpha && this.beta == beta
      ensures Loop() == old(Loop())
    {
      this.alpha := alpha;
      this.beta := beta;
    }

    /** set_wrapper_loop: the strides are stored unchanged, a zero size
        becomes one. */
    method SetWrapperLoop(strideInInld: int, strideInOutld: int, strideOutInld: int, strideOutOutld: int,
                          sizeKnInld: nat, sizeKnOutld: nat)
      modifies this
      ensures this.sizeKnInld >= 1 && this.sizeKnOutld >= 1
      ensures Loop() == WrapperLoop(strideInInld, strideInOutld, strideOutInld, strideOutOutld,
                                    AtLeastOne(sizeKnInld), AtLeastOne(sizeKnOutld))
      ensures Scale() == old(Scale())
    {
      this.strideInInld := strideInInld;
      this.strideInOutld := strideInOutld;
      this.strideOutInld := strideOutInld;
      this.strideOutOutld := strideOutOutld;
      this.sizeKnInld := if sizeKnInld > 0 then sizeKnInld else 1;
      this.sizeKnOutld := if sizeKnOutld > 0 then sizeKnOutld else 1;
    }

    /** exec as written: each assignment goes to data_out + offset_in +
        stride_out_inld * in_idx. UPDATE_OUT is a template parameter, so
        the source's two loop nests are one nest here with the test inside. */
    method Exec(input: array<int>, inOff: int, output: array<int>, outOff: int, sizeTrans: int, sizePad: int)
      requires input != output
      requires StepsInRange(Loop(), update, false, input.Length, output.Length, inOff, outOff)
      modifies output
      ensures output[..] == Run(Loop(), Scale(), false, input[..], old(output[..]), inOff, outOff, sizeKnOutld)
    {
      ghost var l, sc := Loop(), Scale();
      var outIdx: nat := 0;
      while outIdx < sizeKnOutld
        invariant outIdx <= sizeKnOutld
        invariant output[..] == Run(l, sc, false, input[..], old(output[..]), inOff, outOff, outIdx)
      {
        var offsetIn := Scaled(outIdx, strideInOutld);
        var offsetOut := Scaled(outIdx, strideOutOutld);
        ghost var rowStart := output[..];
        var inIdx: nat := 0;
        while inIdx < sizeKnInld
          invariant inIdx <= sizeKnInld
          invariant output[..] == RunRow(l, sc, false, input[..], rowStart, inOff, outOff, outIdx, inIdx)
        {
          var src := inOff + offsetIn + Scaled(inIdx, strideInInld);
          var dst := outOff + offsetIn + Scaled(inIdx, strideOutInld);
          assert src == InAddr(l, inOff, outIdx, inIdx) && dst == WriteAddr(l, outOff, outIdx, inIdx, false);
          ghost var before := output[..];
          if update {
            var cur := outOff + offsetOut + Scaled(inIdx, strideOutInld);
            assert cur == OutAddr(l, outOff, outIdx, inIdx);
            output[dst] := alpha * input[src] + beta * output[cur];
          } else {
            output[dst] := alpha * input[src];
          }
          assert output[..] == Step(l, sc, false, input[..], before, inOff, outOff, outIdx, inIdx);
          inIdx := inIdx + 1;
        }
        outIdx := outIdx + 1;
      }
    }

    /** exec with each assignment at data_out + offset_out +
        stride_out_inld * in_idx, the cell whose old value it reads. */
    method ExecCorrected(input: array<int>, inOff: int, output: array<int>, outOff: int, sizeTrans: int, sizePad: int)
      requires input != output
      requires StepsInRange(Loop(), update, true, input.Length, output.Length, inOff, outOff)
      modifies output
      ensures output[..] == Run(Loop(), Scale(), true, input[..], old(output[..]), inOff, outOff, sizeKnOutld)
    {
      ghost var l, sc := Loop(), Scale();
      var outIdx: nat := 0;
      while outIdx < sizeKnOutld
        invariant outIdx <= sizeKnOutld
        invariant output[..] == Run(l, sc, true, input[..], old(output[..]), inOff, outOff, outIdx)
      {
        var offsetIn := Scaled(outIdx, strideInOutld);
        var offsetOut := Scaled(outIdx, strideOutOutld);
        ghost var rowStart := output[..];
        var inIdx: nat := 0;
        while inIdx < sizeKnInld
          invariant inIdx <= sizeKnInld
          invariant output[..] == RunRow(l, sc, true, input[..], rowStart, inOff, outOff, outIdx, inIdx)
        {
          var src := inOff + offsetIn + Scaled(inIdx, strideInInld);
          var dst := outOff + offsetOut + Scaled(inIdx, strideOutInld);
          assert src == InAddr(l, inOff, outIdx, inIdx) && dst == OutAddr(l, outOff, outIdx, inIdx);
          ghost var before := output[..];
          if update {
            output[dst] := alpha * input[src] + beta * output[dst];
          } else {
            output[dst] := alpha * input[src];
          }
          assert output[..] == Step(l, sc, true, input[..], before, inOff, outOff, outIdx, inIdx);
          inIdx := inIdx + 1;
        }
        outIdx := outIdx + 1;
      }
    }
  }
}
