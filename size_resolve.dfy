/*
 * The size vectors the generated CGraphTransPack constructors build before
 * planning: the input extents as given, the output extents
 * out_size[k] = in_size[perm[k]], and an outer-size vector per tensor that
 * falls back to the inner extents when it is empty.
 *
 * As generated, the input outer-size vector is constructed from the empty
 * range in_outer_size.begin() .. in_outer_size.begin(), so a supplied
 * input outer size is dropped. ResolveSizesAsWritten keeps that, and the
 * graph packs plan from its result; ResolveSizes copies the whole vector.
 */
module SizeResolve {
  import opened TransApi

  /** The four vectors a constructor hands to the planner. */
  datatype Sizes = Sizes(inSize: seq<nat>, inOuterSize: seq<nat>, outSize: seq<nat>, outOuterSize: seq<nat>)

  /** What the out_size loop reads: perm[k] indexes in_size for k < order. */
  predicate PermReadable(order: nat, inSize: seq<nat>, perm: seq<nat>)
  {
    order <= |perm| && forall k :: 0 <= k < order ==> perm[k] < |inSize|
  }

  /** The sizes the constructors mean to build. */
  function Intended(order: nat, inSize: seq<nat>, perm: seq<nat>, inOuter: seq<nat>, outOuter: seq<nat>): Sizes
    requires PermReadable(order, inSize, perm)
  {
    var outSize := Permuted(inSize, perm[..order]);
    Sizes(inSize, DefaultOuter(inOuter, inSize), outSize, DefaultOuter(outOuter, outSize))
  }

  /** in_outer_size_vec as generated: a copy of the empty range at the
      start of in_outer_size, replaced by in_size only when in_outer_size
      is empty. */
  function InOuterAsWritten(inSize: seq<nat>, inOuter: seq<nat>): seq<nat>
  {
    var copied := inOuter[..0];
    if |inOuter| == 0 then inSize else copied
  }

  /** The sizes the constructors build as generated: the intended ones,
      with the input outer size replaced by InOuterAsWritten. */
  function AsWritten(order: nat, inSize: seq<nat>, perm: seq<nat>, inOuter: seq<nat>, outOuter: seq<nat>): Sizes
    requires PermReadable(order, inSize, perm)
  {
    Intended(order, inSize, perm, inOuter, outOuter).(inOuterSize := InOuterAsWritten(inSize, inOuter))
  }

  /** out_size_vec: a zero-filled vector of `order` entries, entry k then
      set to in_size[perm[k]]. */
  method PermuteSizes(order: nat, inSize: seq<nat>, perm: seq<nat>) returns (outSize: seq<nat>)
    requires PermReadable(order, inSize, perm)
    ensures |outSize| == order
    ensures forall k :: 0 <= k < order ==> outSize[k] == inSize[perm[k]]
  {
    var v := new nat[order](_ => 0);
    for k := 0 to order
      invariant forall j :: 0 <= j < k ==> v[j] == inSize[perm[j]]
    {
      v[k] := inSize[perm[k]];
    }
    outSize := v[..];
  }

  /** The size block of the constructors as generated. */
  method ResolveSizesAsWritten(order: nat, inSize: seq<nat>, perm: seq<nat>, inOuter: seq<nat>, outOuter: seq<nat>)
    returns (s: Sizes)
    requires PermReadable(order, inSize, perm)
    ensures s == AsWritten(order, inSize, perm, inOuter, outOuter)
  {
    var inSizeVec := inSize;
    var inOuterSizeVec := inOuter[..0];
    if |inOuter| == 0 {
      inOuterSizeVec := inSizeVec;
    }
    var outSizeVec := PermuteSizes(order, inSizeVec, perm);
    var outOuterSizeVec := outOuter;
    if |outOuter| == 0 {
      outOuterSizeVec := outSizeVec;
    }
    s := Sizes(inSizeVec, inOuterSizeVec, outSizeVec, outOuterSizeVec);
  }

  /** The size block with the input outer size copied in full. */
  method ResolveSizes(order: nat, inSize: seq<nat>, perm: seq<nat>, inOuter: seq<nat>, outOuter: seq<nat>)
    returns (s: Sizes)
    requires PermReadable(order, inSize, perm)
    ensures s == Intended(order, inSize, perm, inOuter, outOuter)
  {
    var inSizeVec := inSize;
    var inOuterSizeVec := inOuter;
    if |inOuter| == 0 {
      inOuterSizeVec := inSizeVec;
    }
    var outSizeVec := PermuteSizes(order, inSizeVec, perm);
    var outOuterSizeVec := outOuter;
    if |outOuter| == 0 {
      outOuterSizeVec := outSizeVec;
    }
    s := Sizes(inSizeVec, inOuterSizeVec, outSizeVec, outOuterSizeVec);
  }

  /** On an accepted request the intended sizes describe both tensors:
      ORDER positive extents each, outer extents at least the inner ones
      with room for the offsets, the supplied outer sizes kept, and the
      output extents a rearrangement of the input extents. */
  lemma IntendedDescribesRequest(r: Request)
    requires WellTyped(r) && Accepted(r)
    ensures PermReadable(r.order, r.inSize, r.perm)
    ensures var s := Intended(r.order, r.inSize, r.perm, r.inOuter.size, r.outOuter.size);
      |s.inSize| == |s.inOuterSize| == |s.outSize| == |s.outOuterSize| == r.order &&
      (|r.inOuter.size| > 0 ==> s.inOuterSize == r.inOuter.size) &&
      (|r.outOuter.size| > 0 ==> s.outOuterSize == r.outOuter.size) &&
      multiset(s.outSize) == multiset(s.inSize) &&
      (forall k :: 0 <= k < r.order ==>
                     0 < s.inSize[k] && r.inOuter.offset[k] + s.inSize[k] <= s.inOuterSize[k]) &&
      (forall k :: 0 <= k < r.order ==>
                     0 < s.outSize[k] && r.outOuter.offset[k] + s.outSize[k] <= s.outOuterSize[k])
  {
    assert r.perm[..r.order] == r.perm;
    PermutedRearranges(r.inSize, r.perm);
  }

  /** As generated, an accepted request that supplies an input outer size
      hands the planner an empty input outer-size vector instead of its
      ORDER entries. */
  lemma AsWrittenDropsInOuter(r: Request)
    requires WellTyped(r) && Accepted(r)
    requires |r.inOuter.size| > 0
    ensures |InOuterAsWritten(r.inSize, r.inOuter.size)| == 0
    ensures |Intended(r.order, r.inSize, r.perm, r.inOuter.size, r.outOuter.size).inOuterSize| == r.order > 1
  {
  }

  /** The generated size block plans from the intended sizes exactly when
      no input outer size is supplied; a supplied one always reaches the
      planner as an empty vector, while every other size is as intended. */
  lemma AsWrittenAgreesIffDefaulted(order: nat, inSize: seq<nat>, perm: seq<nat>, inOuter: seq<nat>, outOuter: seq<nat>)
    requires PermReadable(order, inSize, perm)
    ensures AsWritten(order, inSize, perm, inOuter, outOuter) == Intended(order, inSize, perm, inOuter, outOuter)
            <==> |inOuter| == 0
    ensures |inOuter| > 0 ==> AsWritten(order, inSize, perm, inOuter, outOuter).inOuterSize == []
    ensures var a, i := AsWritten(order, inSize, perm, inOuter, outOuter), Intended(order, inSize, perm, inOuter, outOuter);
      a.inSize == i.inSize && a.outSize == i.outSize && a.outOuterSize == i.outOuterSize
  {
    if |inOuter| > 0 {
      assert Intended(order, inSize, perm, inOuter, outOuter).inOuterSize == inOuter;
    }
  }
}
