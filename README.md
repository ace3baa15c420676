# hptc / hptt tensor transpose — execution layer in Dafny

hptc (and its successor namespace hptt) computes tensor transposes of the form
`B[perm(i)] = alpha * A[i] + beta * B[perm(i)]` for float, double,
FloatComplex and DoubleComplex tensors. A planner picks a loop order and a
parallel strategy and builds a computational graph. At the bottom of that
graph sit macro-kernels, each of which tiles a block with fixed-size
micro-kernels, and wrapper loops that drive line or scalar kernels over
strided offsets. This project models that execution layer and the code
around it:

- **The full-width AVX micro-kernels** (`AvxFullKernel`, `AvxIntrinsics`,
  `Memory`):
  - the rows of one tile are loaded;
  - they are transposed in registers by a fixed network of unpack, shuffle
    and permute2f128 lane permutations;
  - each lane is scaled by alpha and combined with beta times the old
    output, as the `CoefUsageTrans` value selects;
  - the rows are stored back.
  The lane semantics of the intrinsics follow the VUNPCKLPS/VUNPCKHPS,
  VSHUFPS, VSHUFPD and VPERM2F128 entries of the Intel 64 and IA-32
  Architectures Software Developer's Manual, Volume 2. Registers are
  sequences of lanes.
- **The macro-kernel** (`MacroKernel`). It models the compile-time recursion
  `tile_inld_` / `tile_outld_` over `SIZE_IN_INLD x SIZE_IN_OUTLD`
  micro-kernel tiles, and the optional streaming path. That path writes
  through an aligned buffer and copies it out with streaming stores.
- **The wrapper loops** `MacroTransLinear` and `MacroTransScalar`
  (`MacroWrappers`).
- **The kernel-width and register-type tables** of the AVX2 and IBM
  back-ends (`Avx2KernelTypes`, `IbmKernelTypes`), and the shared
  enumerations (`TransTypes`).
- **The documented contract of `create_cgraph_trans`** (`TransApi`):
  - the reference semantics;
  - the six conditions under which no graph is returned;
  - the tuning budget chosen by `max_num_cand`.
- **The generated graph packs** of both namespaces (`SizeResolve`,
  `Dispatch`, `HptcPack`, `HpttPack`):
  - size resolution;
  - one pointer slot per generated order;
  - the if / else-if chains over the slots;
  - the text of the generated initialiser list.

Memory is an `array` with an element offset standing for a pointer, and
floating-point values are `int`.

The header comment of `create_cgraph_trans` (inc/hptc/hptc_trans.h:58-60)
says that `in_outer_size` describes the input tensor's outer size. The
generated constructors drop a supplied one, because they copy it from the
empty range `begin()..begin()`. The graph-pack constructors follow the code
as written: they plan from `SizeResolve.ResolveSizesAsWritten`. The
corrected size block, `SizeResolve.ResolveSizes`, is proved to describe the
request (`SizeResolve.IntendedDescribesRequest`). The two blocks agree
exactly when no input outer size is supplied
(`SizeResolve.AsWrittenAgreesIffDefaulted`); see "## Findings".

## Model

| member | source | states |
|---|---|---|
| TransTypes.UsageOfBits | inc/hptc/util/util_trans.h:17-22 | Every value 0..3 is the enumerator value of some coefficient usage, so the two-bit encoding is onto. |
| TransTypes.UsageBits | inc/hptc/util/util_trans.h:17-22 | A coefficient usage's enumerator value fits in two bits. |
| Avx2KernelTypes.DeducedRegType | inc/hptc/kernels/avx2/kernel_trans_avx2.h:20-73 | For every element kind and kernel type, exactly one RegTypeDeducer specialisation is enabled, and that specialisation's register type is the result. |
| Avx2KernelTypes.KnWidth | inc/hptc/kernels/avx2/kernel_trans_avx2.h:82-85 | The full width times sizeof fills the 32-byte register, the half width fills half of it, and the line width is 1. |
| Avx2KernelTypes.KnWidthValues | inc/hptc/kernels/avx2/kernel_trans_avx2.h:82-85 | The widths per element kind are: full 8/4/4/2, half 4/2/2/1, line 1. |
| Avx2KernelTypes.RegisterHoldsTileRow | inc/hptc/kernels/avx2/kernel_trans_avx2.h:20-86 | The deduced register is a vector type exactly when the width exceeds 1. A vector register is exactly one tile row wide. Otherwise the register is the scalar float or double, as for DoubleComplex with KERNEL_HALF. |
| IbmKernelTypes.SelectorTable | inc/hptt/arch/ibm/kernel_trans_ibm.h:27-42 | The exact truth tables of fhl_sc, f_d and fhl_dz. f_d and fhl_dz overlap exactly at (double, FULL). No selector holds exactly at (DoubleComplex, FULL). |
| IbmKernelTypes.RegDeducer | inc/hptt/arch/ibm/kernel_trans_ibm.h:48-77 | The deduction is unique exactly when one selector holds, and then it is the selected register type. It is ambiguous when more than one selector holds. |
| IbmKernelTypes.RegDeducerTable | inc/hptt/arch/ibm/kernel_trans_ibm.h:54-73 | float and FloatComplex deduce `float`. double and DoubleComplex with HALF or LINE deduce `double`. (double, FULL) is ambiguous and (DoubleComplex, FULL) has no specialisation. |
| IbmKernelTypes.KnWidth | inc/hptt/arch/ibm/kernel_trans_ibm.h:90-92 | KN_WIDTH times sizeof is SIZE_REG for FULL and half of it for HALF; KN_WIDTH is 1 for LINE. |
| Memory.LoadRows | src/kernels/kernel_trans_avx_full.cc:33-40 | Row x of the loaded tile is the n elements starting at base + x * stride. |
| Memory.StoreRows | src/kernels/kernel_trans_avx_full.cc:121-128 | Row x is stored at base + x * stride, and no cell outside the tile's rows changes. |
| AvxFullKernel.NetworkFloatTransposes | src/kernels/kernel_trans_avx_full.cc:44-69 | The 8 x 8 unpack/shuffle/permute2f128 network leaves lane c of output row r equal to lane r of input row c. |
| AvxFullKernel.NetworkDoubleTransposes | src/kernels/kernel_trans_avx_full.cc:153-160 | The shuffle_pd 0x3/0xC plus permute2f128 network is a 4 x 4 transpose. |
| AvxFullKernel.NetworkFloatComplexTransposes | src/kernels/kernel_trans_avx_full.cc:228-235 | The network transposes the 4 x 4 grid of complex elements. Each element's real and imaginary float lanes stay together and in order. |
| AvxFullKernel.NetworkDoubleComplexTransposes | src/kernels/kernel_trans_avx_full.cc:306-309 | The permute2f128 0x2/0x13 pair transposes the 2 x 2 grid of complex elements, keeping each (re, im) pair together. |
| AvxFullKernel.TransposeFloat | src/kernels/kernel_trans_avx_full.cc:44-69 | The in-register step of the float kernel returns the transpose of its eight input rows. |
| AvxFullKernel.TransposeDouble | src/kernels/kernel_trans_avx_full.cc:153-160 | The in-register step of the double kernel returns the transpose of its four input rows. |
| AvxFullKernel.TransposeFloatComplex | src/kernels/kernel_trans_avx_full.cc:228-235 | The in-register step of the FloatComplex kernel returns the complex-pair transpose of its rows. |
| AvxFullKernel.TransposeDoubleComplex | src/kernels/kernel_trans_avx_full.cc:306-309 | The in-register step of the DoubleComplex kernel returns the complex-pair transpose of its rows. |
| AvxFullKernel.UsageFlagsAreBits | src/kernels/kernel_trans_avx_full.cc:72-87 | need_rescale is bit 0 of the enumerator value, and need_update is bit 1. |
| AvxFullKernel.CombineByUsage | src/kernels/kernel_trans_avx_full.cc:72-118 | The stored lane is: x for USE_NONE; alpha*x for USE_ALPHA; x + beta*y for USE_BETA; alpha*x + beta*y for USE_BOTH. |
| AvxFullKernel.CombineReadsOutputIffUpdate | src/kernels/kernel_trans_avx_full.cc:85-118 | The old output changes the stored value for some beta exactly when USAGE uses beta. Without beta the result is independent of beta and of the old output. |
| AvxFullKernel.FinishSteps | src/kernels/kernel_trans_avx_full.cc:72-118 | Rescaling when alpha is used, then adding beta times the old rows when beta is used, gives every lane the per-usage combination of the transposed lane and the old lane. |
| AvxFullKernel.RegCoefPs | src/kernels/kernel_trans_avx_full.cc:21-23 | reg_coef broadcasts the coefficient to all eight float lanes (float and FloatComplex). |
| AvxFullKernel.RegCoefPd | src/kernels/kernel_trans_avx_full.cc:134-136 | reg_coef broadcasts the coefficient to all four double lanes (double and DoubleComplex). |
| AvxFullKernel.UnflattenFlatten | src/kernels/kernel_trans_avx_full.cc:218-224 | Viewing complex elements as interleaved float lanes and back gives the same elements. |
| AvxFullKernel.KernelFloat | src/kernels/kernel_trans_avx_full.cc:27-129 | Output cell (r, c) of the 8 x 8 tile becomes the per-usage combination of input cell (c, r) and the old output cell (r, c). Old values are read before any store. No cell outside the tile's rows changes. |
| AvxFullKernel.KernelDouble | src/kernels/kernel_trans_avx_full.cc:140-200 | The same as KernelFloat, for a 4 x 4 double tile. |
| AvxFullKernel.KernelFloatComplex | src/kernels/kernel_trans_avx_full.cc:212-282 | Each output element (r, c) of the 4 x 4 complex tile is the lane-wise combination of input element (c, r) and the old output element. The coefficient lanes are the ones at the element's real and imaginary positions. No cell outside the tile changes. |
| AvxFullKernel.KernelDoubleComplex | src/kernels/kernel_trans_avx_full.cc:294-342 | The same as KernelFloatComplex, for a 2 x 2 DoubleComplex tile. |
| MacroKernel.MicroKernel.constructor | inc/hptt/arch/ibm/kernel_trans_ibm.h:90-92 | The micro-kernel's width is the KN_WIDTH of its element kind and kernel type. |
| MacroKernel.MicroKernel.SetCoef | inc/hptt/arch/ibm/kernel_trans_ibm.h:97-98 | set_coef stores alpha and beta. |
| MacroKernel.MicroKernel.Exec | inc/hptt/arch/ibm/kernel_trans_ibm.h:118-120 | exec writes the scaled transpose of one width x width tile, alpha*x, plus beta*y when UPDATE_OUT. Nothing else changes. |
| MacroKernel.MicroKernel.SStore | inc/hptt/arch/ibm/kernel_trans_ibm.h:94 | sstore copies KN_WIDTH contiguous buffer elements, and nothing else changes. |
| MacroKernel.MacroTrans.constructor | src/kernels/macro_kernel_trans.cc:13-19 | kn_width_ is the micro-kernel's KN_WIDTH. |
| MacroKernel.MacroTrans.GetContLen | src/kernels/macro_kernel_trans.cc:22-28 | get_cont_len is SIZE_IN_INLD times the micro-kernel's KN_WIDTH: a whole number of tiles, exactly SIZE_IN_INLD of them, and at least one tile wide. |
| MacroKernel.MacroTrans.GetNcontLen | src/kernels/macro_kernel_trans.cc:31-37 | get_ncont_len is SIZE_IN_OUTLD times the micro-kernel's KN_WIDTH: a whole number of tiles, exactly SIZE_IN_OUTLD of them, and at least one tile wide. |
| MacroKernel.MacroTrans.SetCoef | src/kernels/macro_kernel_trans.cc:43-47 | The macro-kernel passes alpha and beta to its micro-kernel. |
| MacroKernel.SubTileFitsBlock | src/kernels/macro_kernel_trans.cc:123-127 | Tile (i, j) uses input offset i*w + j*w*stride_in_outld and output offset j*w + i*w*stride_out_inld, and the tile lies inside both arrays. |
| MacroKernel.MacroTrans.ExecTile | src/kernels/macro_kernel_trans.cc:117-142 | One micro-kernel call writes exactly the tile's cells of the block: each with the scaled transposed input, at the offsets the source computes. |
| MacroKernel.MacroTrans.TileOutld | src/kernels/macro_kernel_trans.cc:117-142 | tile_outld_<i, o> calls the kernel for (i, 0) .. (i, o) in that order, and completes that strip of the block. |
| MacroKernel.MacroTrans.TileInld | src/kernels/macro_kernel_trans.cc:90-109 | tile_inld_<I, O> calls the kernel for every (i, j) in [0, I) x [0, O) with i outer and j inner, and completes that rectangle of the block. |
| MacroKernel.TileOrderRowMajor | src/kernels/macro_kernel_trans.cc:90-142 | Call number k of the recursion is the tile (k / O, k % O). |
| MacroKernel.TileVisitedOnce | src/kernels/macro_kernel_trans.cc:90-142 | Every tile (i, j) is called exactly once, as call number i*O + j. |
| MacroKernel.MacroTrans.StreamRow | src/kernels/macro_kernel_trans.cc:74-77 | The inner copy loop copies buffer row x (stride NUM_IN_OUTLD) in KN_WIDTH chunks to output row x, and changes nothing else. |
| MacroKernel.MacroTrans.StreamCopy | src/kernels/macro_kernel_trans.cc:73-77 | The copy-out loops write each cell of the block from the buffer and leave every cell outside the block unchanged. |
| MacroKernel.MacroTrans.Exec | src/kernels/macro_kernel_trans.cc:53-82 | Streaming is taken exactly when the kernel does not update, the output is aligned and check_stream(NUM_IN_OUTLD) holds. Both paths call the tiles in row-major order. Both leave the whole cont_len x ncont_len block transposed and scaled, and nothing outside it changed. |
| MacroWrappers.AtLeastOne | src/kernels/macro_kernel_trans.cc:176-177 | A zero size becomes 1; any other size is kept. |
| MacroWrappers.MacroTransLinear.constructor | src/kernels/macro_kernel_trans.cc:150-154 | Every stride and size starts at 1. |
| MacroWrappers.MacroTransLinear.SetCoef | src/kernels/macro_kernel_trans.cc:159-163 | The coefficients go to the line kernel. |
| MacroWrappers.MacroTransLinear.SetWrapperLoop | src/kernels/macro_kernel_trans.cc:168-178 | The four strides are stored unchanged, and zero sizes are clamped to 1. |
| MacroWrappers.MacroTransLinear.Exec | src/kernels/macro_kernel_trans.cc:183-195 | The kernel calls issued are exactly those of the two-level loop, in loop order. |
| MacroWrappers.LineCallsIndex | src/kernels/macro_kernel_trans.cc:186-194 | There are size_kn_outld * size_kn_inld calls. Call k has input offset stride_in_outld*o + stride_in_inld*i and output offset stride_out_outld*o + stride_out_inld*i, where o = k / size_kn_inld and i = k % size_kn_inld. |
| MacroWrappers.ScaledIsProduct | src/kernels/macro_kernel_trans.cc:232-233 | The loop's offsets stride * out_idx are the signed products. |
| MacroWrappers.MacroTransScalar.SetCoef | src/kernels/macro_kernel_trans.cc:203-207 | set_coef stores alpha and beta and leaves the loop configuration alone. |
| MacroWrappers.MacroTransScalar.SetWrapperLoop | src/kernels/macro_kernel_trans.cc:212-222 | The strides are stored unchanged, zero sizes are clamped to 1, and the coefficients are kept. |
| MacroWrappers.MacroTransScalar.Exec | src/kernels/macro_kernel_trans.cc:227-252 | As written: the output is the sequential run of assignments. Each assignment writes data_out + offset_in + stride_out_inld*i, and reads the beta term at offset_out when UPDATE_OUT. |
| MacroWrappers.MacroTransScalar.ExecCorrected | src/kernels/macro_kernel_trans.cc:230-251 | The corrected loop writes each cell at the offset_out address it reads. |
| MacroWrappers.RunCorrected | src/kernels/macro_kernel_trans.cc:230-251 | With distinct output addresses, the corrected loop leaves output cell (o, i) equal to alpha*in(o, i), plus beta*out(o, i) with UPDATE_OUT. Every other cell is unchanged. |
| MacroWrappers.AsWrittenMatchesWhenStridesAgree | src/kernels/macro_kernel_trans.cc:232-236 | When stride_in_outld equals stride_out_outld, the loop as written and the corrected loop produce the same output. |
| MacroWrappers.ScalarAsWrittenCounterexample | src/kernels/macro_kernel_trans.cc:236-239 | With stride_in_outld 2 and stride_out_outld 1, the loop as written leaves cell 1 unwritten and puts row 1's result into cell 2. |
| TransApi.Permuted | inc/hptc/hptc_trans.h:34-35 | Position k of the permuted multi-index, or extent list, holds entry perm[k]. |
| TransApi.InverseFacts | inc/hptc/hptc_trans.h:52-53 | The inverse of a permutation is a permutation, and it undoes perm on both sides. |
| TransApi.PermutedRoundTrip | inc/hptc/hptc_trans.h:52-53 | Permuting by perm and then by its inverse, or in the opposite order, gives back the original sequence. |
| TransApi.PermutedRearranges | inc/hptc/hptc_trans.h:52-53 | The permuted extents are a rearrangement (the same multiset) of the input extents. |
| TransApi.PermutedInBounds | inc/hptc/hptc_trans.h:34-35 | A multi-index is within the input extents exactly when its permutation is within the permuted extents. |
| TransApi.TransposedIsTranspose | inc/hptc/hptc_trans.h:34-35 | The reference output meets the formula B[perm(i)] = alpha*A[i] + beta*B[perm(i)] for every in-bounds multi-index i. |
| TransApi.TransposeDeterminesOutput | inc/hptc/hptc_trans.h:34-35 | Any two outputs that meet the formula agree on every in-bounds output index. |
| TransApi.TransposeRoundTrip | inc/hptc/hptc_trans.h:34-35 | Transposing with alpha=1, beta=0, and then by the inverse permutation, gives back the input. |
| TransApi.MatrixTranspose | inc/hptc/hptc_trans.h:52-53 | For perm = {1, 0}: B[y][x] = alpha*A[x][y] + beta*B[y][x]. |
| TransApi.DefaultOuter | inc/hptc/hptc_trans.h:58-63 | An empty outer-size vector stands for the inner extents; a non-empty one is used as given. |
| TransApi.Create | inc/hptc/hptc_trans.h:88-97 | Null under each of the six documented conditions. Otherwise it is the planned graph, and any graph returned means every condition was passed. |
| TransApi.AcceptedStaysInside | inc/hptc/hptc_trans.h:95-97 | On an accepted request, every element read (i + in_offset) and written (perm(i) + out_offset) lies within its outer extents. |
| TransApi.TuningOf | inc/hptc/hptc_trans.h:64-75 | Negative: tune all candidates. Zero: use the model's pick. Positive: measure exactly that many. |
| SizeResolve.PermuteSizes | cmake/pylib/gen_util/hptc_trans_gen.py:85-88 | out_size has ORDER entries, and entry k is in_size[perm[k]]. |
| SizeResolve.ResolveSizesAsWritten | cmake/pylib/gen_util/hptc_trans_gen.py:78-90 | The generated size block as written: intended sizes, except that the input outer size is empty unless in_outer_size was empty (then it is in_size). |
| SizeResolve.ResolveSizes | inc/hptc/hptc_trans.h:58-63 | The corrected half of the second finding: the generated size block with `in_outer_size` copied over its whole range. Inner sizes as given, out_size permuted, and each outer size defaulted to its inner size when empty. |
| SizeResolve.AsWrittenAgreesIffDefaulted | cmake/pylib/gen_util/hptt_trans_gen.py:188-199 | The generated block gives the intended sizes exactly when in_outer_size is empty. A supplied one reaches the planner as an empty vector, and the other three vectors are always as intended. |
| SizeResolve.IntendedDescribesRequest | inc/hptc/hptc_trans.h:92-97 | On an accepted request, the intended sizes give ORDER entries each. Supplied outer sizes are kept. The output extents rearrange the input extents. Every extent is positive, and every extent plus its offset stays within the outer extent. |
| SizeResolve.AsWrittenDropsInOuter | cmake/pylib/gen_util/hptc_trans_gen.py:79-80 | As generated, an accepted request that supplies an input outer size hands the planner an empty vector instead of ORDER (at least 2) entries. |
| Dispatch.FirstSome | cmake/pylib/gen_util/hptc_trans_gen.py:33-38 | The result is null exactly when every slot is null; otherwise it is the first non-null slot. |
| Dispatch.RunChain | cmake/pylib/gen_util/hptc_trans_gen.py:33-38 | The if / else-if test loop runs exactly the first non-null slot's graph, or nothing. |
| Dispatch.DeleteAll | cmake/pylib/gen_util/hptc_trans_gen.py:26-30 | Deleting every slot in turn frees exactly the non-null slots' graphs, in slot order. |
| Dispatch.SingleSlot | cmake/pylib/gen_util/hptc_trans_gen.py:17-24 | With distinct orders and only the requested order's slot set: the chain runs that graph exactly when the order was generated, and deletion frees it once. |
| Dispatch.InterleaveNullRight | cmake/pylib/gen_util/hptt_trans_gen.py:89-116 | When every _f_ slot is null, the _t_-before-_f_ chain reaches and frees exactly what the _t_ table alone would. |
| Dispatch.InterleaveNullLeft | cmake/pylib/gen_util/hptt_trans_gen.py:89-116 | When every _t_ slot is null, the chain reaches and frees exactly what the _f_ table alone would. |
| Dispatch.GenChain | cmake/pylib/gen_util/hptt_trans_gen.py:118-130 | A branch opens with `if` exactly when its order is the first order, so with distinct orders only the first branch opens with `if`. |
| Dispatch.ChainRunsFirst | cmake/pylib/gen_util/hptc_trans_gen.py:33-38 | A chain opened by `if` and continued by `else if` alone runs the first non-null slot's graph and nothing else. |
| HptcPack.CGraphTransPackBase.constructor | cmake/pylib/gen_util/hptc_trans_gen.py:17-24 | The requested order's slot holds the graph planned from the sizes as generated (`SizeResolve.AsWritten`, which drops a supplied in_outer_size), and every other slot is null. Hence exec_base_ and the destructor reach that graph exactly when the order was generated. |
| HptcPack.CGraphTransPackBase.ExecBase | cmake/pylib/gen_util/hptc_trans_gen.py:33-38 | exec_base_ runs the first non-null slot. |
| HptcPack.CGraphTransPackBase.Destroy | cmake/pylib/gen_util/hptc_trans_gen.py:26-30 | The destructor frees exactly the non-null slots, once each. |
| HpttPack.Deliver | cmake/pylib/gen_util/hptt_trans_gen.py:89-116 | A forwarded call reaches a graph exactly when a target exists, and then it reaches the target with the call unchanged. |
| HpttPack.CGraphTransPack.constructor | cmake/pylib/gen_util/hptt_trans_gen.py:40-59 | All slots start null. Only the requested order's _t_ slot (update_) or _f_ slot (not update_) gets the graph planned from the sizes as generated (`SizeResolve.AsWritten`, which drops a supplied in_outer_size). The forwarding chain and exec_impl_ then reach the same graph, and the destructor frees it once. |
| HpttPack.CGraphTransPack.ExecImpl | cmake/pylib/gen_util/hptt_trans_gen.py:238-244 | exec_impl_ runs the first non-null _t_ slot when update_ holds, and the first non-null _f_ slot otherwise. |
| HpttPack.CGraphTransPack.Exec | cmake/pylib/gen_util/hptt_trans_gen.py:204-213 | exec() and operator()() do what exec_impl_ does. |
| HpttPack.CGraphTransPack.ForwardTarget | cmake/pylib/gen_util/hptt_trans_gen.py:89-116 | The forwarding chain's target is the first non-null slot, with each order's _t_ slot tested before its _f_ slot. |
| HpttPack.CGraphTransPack.ResetDataOf | cmake/pylib/gen_util/hptt_trans_gen.py:88-96 | reset_data goes to the forwarding target with the given pointers, or nowhere. |
| HpttPack.CGraphTransPack.SetThreadIdsOf | cmake/pylib/gen_util/hptt_trans_gen.py:98-106 | set_thread_ids goes to the forwarding target with the given ids, or nowhere. |
| HpttPack.CGraphTransPack.UnsetThreadIdsOf | cmake/pylib/gen_util/hptt_trans_gen.py:108-116 | unset_thread_ids goes to the forwarding target, or nowhere. |
| HpttPack.CGraphTransPack.Destroy | cmake/pylib/gen_util/hptt_trans_gen.py:25-30 | The destructor frees exactly the non-null slots, in _t_ / _f_ order per order. |
| HpttPack.ForwardChainRunsFirst | cmake/pylib/gen_util/hptt_trans_gen.py:88-116 | The generated forwarding text runs only the first non-null slot, whichever order it belongs to. In that text the first order's _t_ test opens with `if` and every other test with `else if`. |
| HpttPack.Decimal | cmake/pylib/gen_util/hptt_trans_gen.py:20-22 | `%d` writes a non-empty string of decimal digits. |
| HpttPack.DecimalDenotes | cmake/pylib/gen_util/hptt_trans_gen.py:20-22 | The digits `%d` writes for n have no leading zero, and their value (`DigitsValue`, most significant digit first) is n. |
| HpttPack.DecimalInjective | cmake/pylib/gen_util/hptt_trans_gen.py:20-22 | Distinct orders get distinct digit strings, so distinct pointer names. |
| HpttPack.InitListShape | cmake/pylib/gen_util/hptt_trans_gen.py:17-22 | The initialiser list text holds two entries, and two commas, per order, and ends in "),". |
| HpttPack.GenDataInit | cmake/pylib/gen_util/hptt_trans_gen.py:17-23 | After the trailing comma is stripped, 2n entries are separated by 2n - 1 commas and the text ends in ')'. With no orders the text is empty. |

## Left out

- The bodies of the IBM micro-kernel, the line kernel and `sstore` are in `inc/hptt/arch/ibm/kernel_trans_ibm.tcc` (included at kernel_trans_ibm.h:128) and in the other back-ends' `.tcc` files, which this model does not cover. They are modelled by their contracts: a width x width scaled transpose, a recorded call, and a copy of KN_WIDTH contiguous elements.
- `check_aligned` and `check_stream` are uninterpreted: a boolean parameter and a function-valued constant.
- Non-temporal stores are modelled as ordinary stores.
- The planner, the index merger, TensorWrapper and the computational-graph builder are declared only; their bodies are not part of this model. The planner is a function parameter `plan`, and a graph is an opaque `Graph` value whose execution is not modelled.
- The data pointers, coefficients, thread count and tuning arguments reach only the planner, so the graph-pack constructors fold them into `plan`.
- `hptt::update_output(beta)` is not part of this model. `update_` is the constructor parameter `update`.
- `print_plan` is console output only, so it is not modelled.
- Floating point: values are `int`, so `mul`/`add` are exact and IEEE rounding, NaN and signed zero are not modelled.
- AvxFullKernel.KernelFloatComplex: the coefficient registers may hold any lanes. `reg_coef` broadcasts a real coefficient (`RegCoefPs`, `RegCoefPd`), so the per-lane contract is more general than the source's use of it; the same holds for KernelDoubleComplex.
- MacroTransScalar.Exec: `UPDATE_OUT` is a template parameter. The two loop nests of the source are one nest here, with the test inside.
- MacroTransScalar.constructor: `src/kernels/macro_kernel_trans.cc` defines no constructor for MacroTransScalar. The model starts its strides and sizes at 1, as MacroTransLinear's does, and its coefficients at 0.
- MacroKernel.MacroTrans.ExecTile: the source computes `IN_INLD * kn_width` with machine multiplication. The model computes these products by repeated addition (`Memory.Mul`, `MacroWrappers.Scaled`), and lemmas prove them equal to the products.
- `TensorIdx` and `TensorUInt` are unbounded integers here: overflow of offset arithmetic is not modelled, and every address used is required to lie inside its array.
- AvxFullKernel.KernelFloat, KernelDouble, KernelFloatComplex, KernelDoubleComplex: the strides are `nat`, not the signed `TensorIdx` of the source, and the kernels require the output stride to be at least the tile width, so that output rows do not overlap. The source does not demand either. Negative strides and overlapping output rows are not modelled.
- MacroKernel.MacroTrans.Exec, ExecTile, TileInld, TileOutld, StreamCopy, StreamRow and MacroKernel.MicroKernel.Exec: the same holds for `MacroKernel.Geometry`. Its strides and offsets are `nat`, and `Fits` requires the output stride to be at least the block's row length.
- HptcPack.CGraphTransPackBase.constructor, HpttPack.CGraphTransPack.constructor: the slots hold the graph the planner returns for the sizes as generated. What the planner makes of an empty input outer-size vector is not part of this model.
- `MIN_ORDER` and `MAX_ORDER` are the first and last entries of the order list and are not separate members.
- TransApi.TuningOf: the model does not cap a positive `max_num_cand` at the number of candidates, because the planner that would apply any cap is not part of this model.
- TransApi.Create: conditions 5 and 6 are read with the outer sizes defaulted to the inner ones, and only once conditions 3 and 4 make the extents readable per order.
- OpenMP, thread partitioning, CPUID and dynamic-library plumbing are not modelled, and neither is the architecture selection.
- The half-width and line kernels of the AVX back-end are outside the modelled files; only their widths and register types are modelled.

## Findings

| source | as written | input that shows it | evidently intended | confidence | as-written member | corrected member |
|---|---|---|---|---|---|---|
| src/kernels/macro_kernel_trans.cc:236 | MacroTransScalar::exec writes each result to `data_out + offset_in + stride_out_inld * in_idx`. That address uses the input's outer stride, while the beta term is read from `offset_out`. | stride_in_outld = 2, stride_out_outld = 1, size_kn_inld = 1, size_kn_outld = 2, UPDATE_OUT: the second result lands in output cell 2 instead of cell 1, and cell 1 is never written. | Write to `data_out + offset_out + stride_out_inld * in_idx`, the cell the beta term reads. | not executed | MacroWrappers.ScalarAsWrittenCounterexample | MacroWrappers.RunCorrected |
| cmake/pylib/gen_util/hptc_trans_gen.py:79-80 | Both generated constructors build `in_outer_size_vec` from the empty range `in_outer_size.begin()..in_outer_size.begin()`. The same code is at hptt_trans_gen.py:188-189. | order 2, in_size {3, 4}, in_outer_size {5, 6}: the planner receives an empty input outer size instead of {5, 6}. | Copy `in_outer_size.begin()..in_outer_size.end()`, as is done for the output outer size. | not executed | SizeResolve.AsWrittenDropsInOuter | SizeResolve.IntendedDescribesRequest |
