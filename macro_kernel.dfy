/*
 * The macro-kernel of the hptt namespace: a block of SIZE_IN_INLD x
 * SIZE_IN_OUTLD micro-kernel tiles, visited by the compile-time recursion
 * tile_inld_ / tile_outld_, written either directly or through an aligned
 * stack buffer copied out with streaming stores.
 *
 * Element values are `int`; the micro-kernel (whose body is not part of
 * this model) transposes one KN_WIDTH x KN_WIDTH tile and scales it.
 */
module MacroKernel {
  import opened TransTypes
  import opened Memory
  import IbmKernelTypes

  type Width = w: nat | 1 <= w witness 1

  /** What a micro-kernel stores for input element x and old output
      element y: alpha * x, plus beta * y when it updates the output. */
  datatype Scaling = Scaling(update: bool, alpha: int, beta: int)
  {
    function Apply(x: int, y: int): int
    {
      if update then alpha * x + beta * y else alpha * x
    }
  }

  /** A block transposed by a kernel: `nx` output rows of `ny` elements
      (stride sOut, from outOff), read from `ny` input rows of `nx`
      elements (stride sIn, from inOff). */
  datatype Geometry = Geometry(inOff: nat, sIn: nat, outOff: nat, sOut: nat, nx: nat, ny: nat)
  {
    /** Both blocks lie inside their arrays and output rows do not overlap. */
    predicate Fits(inLen: nat, outLen: nat)
    {
      TileFits(inLen, inOff, sIn, ny, nx) && TileFits(outLen, outOff, sOut, nx, ny) && ny <= sOut
    }
  }

  /** Going from `prev` to `out`, the output cells (x, y) of the block with
      x0 <= x < x1 and y0 <= y < y1 received the scaled input element
      (y, x); all other cells, inside the block or not, kept their value. */
  ghost predicate RectDone(g: Geometry, sc: Scaling, inp: seq<int>, prev: seq<int>, out: seq<int>,
                           x0: nat, x1: nat, y0: nat, y1: nat)
    requires g.Fits(|inp|, |out|) && |prev| == |out|
  {
    (forall x: nat, y :: 0 <= x < g.nx && 0 <= y < g.ny ==>
       out[Addr(g.outOff, g.sOut, x, y)]
       == if x0 <= x < x1 && y0 <= y < y1
          then sc.Apply(inp[Addr(g.inOff, g.sIn, y, x)], prev[Addr(g.outOff, g.sOut, x, y)])
          else prev[Addr(g.outOff, g.sOut, x, y)])
    && (forall i :: 0 <= i < |out| && !InTile(i, g.outOff, g.sOut, g.nx, g.ny) ==> out[i] == prev[i])
  }

  /** Two steps on row ranges [y0, y1) and [y1, y2) do the range [y0, y2). */
  lemma RectThenY(g: Geometry, sc: Scaling, inp: seq<int>, a: seq<int>, b: seq<int>, c: seq<int>,
                  x0: nat, x1: nat, y0: nat, y1: nat, y2: nat)
    requires g.Fits(|inp|, |a|) && |a| == |b| == |c|
    requires y0 <= y1 <= y2
    requires RectDone(g, sc, inp, a, b, x0, x1, y0, y1)
    requires RectDone(g, sc, inp, b, c, x0, x1, y1, y2)
    ensures RectDone(g, sc, inp, a, c, x0, x1, y0, y2)
  {
  }

  /** Two steps on column ranges [x0, x1) and [x1, x2) do the range [x0, x2). */
  lemma RectThenX(g: Geometry, sc: Scaling, inp: seq<int>, a: seq<int>, b: seq<int>, c: seq<int>,
                  x0: nat, x1: nat, x2: nat, y0: nat, y1: nat)
    requires g.Fits(|inp|, |a|) && |a| == |b| == |c|
    requires x0 <= x1 <= x2
    requires RectDone(g, sc, inp, a, b, x0, x1, y0, y1)
    requires RectDone(g, sc, inp, b, c, x1, x2, y0, y1)
    ensures RectDone(g, sc, inp, a, c, x0, x2, y0, y1)
  {
  }

  /** The geometry of the w x w tile at output cell (x0, y0) of a block. */
  function SubTile(g: Geometry, w: nat, x0: nat, y0: nat): Geometry
  {
    var inPos := Addr(g.inOff, g.sIn, y0, x0);
    var outPos := Addr(g.outOff, g.sOut, x0, y0);
    Geometry(if inPos >= 0 then inPos else 0, g.sIn, if outPos >= 0 then outPos else 0, g.sOut, w, w)
  }

  lemma SubTileFitsBlock(g: Geometry, inLen: nat, outLen: nat, w: Width, x0: nat, y0: nat)
    requires g.Fits(inLen, outLen)
    requires x0 + w <= g.nx && y0 + w <= g.ny
    ensures SubTile(g, w, x0, y0).inOff == Addr(g.inOff, g.sIn, y0, x0)
    ensures SubTile(g, w, x0, y0).outOff == Addr(g.outOff, g.sOut, x0, y0)
    ensures SubTile(g, w, x0, y0).Fits(inLen, outLen)
  {
    assert 0 <= Addr(g.inOff, g.sIn, y0, x0);
    assert 0 <= Addr(g.outOff, g.sOut, x0, y0);
    SubTileFits(inLen, g.inOff, g.sIn, g.ny, g.nx, y0, x0, w, w);
    SubTileFits(outLen, g.outOff, g.sOut, g.nx, g.ny, x0, y0, w, w);
  }

  /** A micro-kernel call on the tile at (x0, y0) is a step on that tile's
      rectangle of the block. */
  lemma TileIsRect(g: Geometry, sc: Scaling, inp: seq<int>, before: seq<int>, after: seq<int>,
                   w: Width, x0: nat, y0: nat)
    requires g.Fits(|inp|, |after|) && |before| == |after|
    requires x0 + w <= g.nx && y0 + w <= g.ny
    requires SubTile(g, w, x0, y0).Fits(|inp|, |after|)
    requires SubTile(g, w, x0, y0).outOff == Addr(g.outOff, g.sOut, x0, y0)
    requires SubTile(g, w, x0, y0).inOff == Addr(g.inOff, g.sIn, y0, x0)
    requires RectDone(SubTile(g, w, x0, y0), sc, inp, before, after, 0, w, 0, w)
    ensures RectDone(g, sc, inp, before, after, x0, x0 + w, y0, y0 + w)
  {
    var t := SubTile(g, w, x0, y0);
    forall x: nat, y | 0 <= x < g.nx && 0 <= y < g.ny
      ensures after[Addr(g.outOff, g.sOut, x, y)]
              == if x0 <= x < x0 + w && y0 <= y < y0 + w
                 then sc.Apply(inp[Addr(g.inOff, g.sIn, y, x)], before[Addr(g.outOff, g.sOut, x, y)])
                 else before[Addr(g.outOff, g.sOut, x, y)]
    {
      if x0 <= x < x0 + w && y0 <= y < y0 + w {
        AddrShift(g.outOff, g.sOut, x0, y0, x - x0, y - y0);
        AddrShift(g.inOff, g.sIn, y0, x0, y - y0, x - x0);
        assert after[Addr(t.outOff, t.sOut, x - x0, y - y0)]
               == sc.Apply(inp[Addr(t.inOff, t.sIn, y - y0, x - x0)], before[Addr(t.outOff, t.sOut, x - x0, y - y0)]);
      } else {
        NotInSubTile(g.outOff, g.sOut, x, y, x0, y0, w, w);
      }
    }
    forall i | 0 <= i < |after| && !InTile(i, g.outOff, g.sOut, g.nx, g.ny)
      ensures after[i] == before[i]
    {
      if InTile(i, t.outOff, t.sOut, w, w) {
        SubTileInside(i, g.outOff, g.sOut, g.nx, g.ny, x0, y0, w, w);
      }
    }
  }

  /** The source's offset expression `base + b*w + a*w*s` is row a*w,
      element b*w of a strided block. */
  lemma TileOrigin(base: nat, s: nat, w: nat, a: nat, b: nat, p: int)
    requires p == base + b * w + a * w * s
    ensures p == Addr(base, s, Mul(a, w), Mul(b, w))
  {
    MulIsProduct(a, w);
    MulIsProduct(b, w);
    MulIsProduct(a * w, s);
  }

  /** The order in which tile_outld_<i, o> invokes the micro-kernel. */
  function TileOutldOrder(i: nat, o: nat): seq<(nat, nat)>
  {
    if o == 0 then [(i, 0)] else TileOutldOrder(i, o - 1) + [(i, o)]
  }

  /** The order in which tile_inld_<I, O> invokes the micro-kernel. */
  function TileInldOrder(I: nat, O: nat): seq<(nat, nat)>
    requires O >= 1
  {
    if I == 0 then [] else TileInldOrder(I - 1, O) + TileOutldOrder(I - 1, O - 1)
  }

  lemma {:induction false} TileOutldOrderRow(i: nat, o: nat)
    ensures TileOutldOrder(i, o) == seq(o + 1, j requires 0 <= j <= o => (i, j))
  {
    if o > 0 {
      TileOutldOrderRow(i, o - 1);
    }
  }

  lemma DivModOf(k: int, q: int, r: int, n: int)
    requires n > 0 && 0 <= r < n && k == q * n + r
    ensures k / n == q && k % n == r
  {
    var d := k / n - q;
    assert d * n == r - k % n;
    if d > 0 {
      MulIsProduct(d, n);
    } else if d < 0 {
      MulIsProduct(-d, n);
    }
  }

  lemma EuclidOf(k: int, n: int)
    requires n > 0
    ensures k == (k / n) * n + k % n
  {
  }

  /** The recursion visits the I x O tiles row-major: call k is tile
      (k / O, k % O), so every tile is visited exactly once, i outer and
      j inner. */
  lemma {:induction false} TileOrderRowMajor(I: nat, O: nat)
    requires O >= 1
    ensures |TileInldOrder(I, O)| == I * O
    ensures forall k :: 0 <= k < I * O ==> TileInldOrder(I, O)[k] == (k / O, k % O)
  {
    if I > 0 {
      TileOrderRowMajor(I - 1, O);
      TileOutldOrderRow(I - 1, O - 1);
      var t := TileInldOrder(I, O);
      assert (I - 1) * O + O == I * O;
      forall k | 0 <= k < I * O
        ensures t[k] == (k / O, k % O)
      {
        if k >= (I - 1) * O {
          DivModOf(k, I - 1, k - (I - 1) * O, O);
        }
      }
    }
  }

  /** Tile (i, j) is the call at index i * O + j and at no other index. */
  lemma TileVisitedOnce(I: nat, O: nat, i: nat, j: nat)
    requires O >= 1 && i < I && j < O
    ensures i * O + j < |TileInldOrder(I, O)|
    ensures forall k :: 0 <= k < |TileInldOrder(I, O)| ==> (TileInldOrder(I, O)[k] == (i, j) <==> k == i * O + j)
  {
    TileOrderRowMajor(I, O);
    MulMono(i + 1, I, O);
    MulIsProduct(i + 1, O);
    MulIsProduct(I, O);
    DivModOf(i * O + j, i, j, O);
    forall k | 0 <= k < |TileInldOrder(I, O)| && TileInldOrder(I, O)[k] == (i, j)
      ensures k == i * O + j
    {
      EuclidOf(k, O);
    }
  }

  /** An nx x ny buffer with row stride ny holds every cell of the tile. */
  lemma BufferFits(len: nat, nx: nat, ny: nat)
    requires len == nx * ny
    ensures TileFits(len, 0, ny, nx, ny)
  {
    MulIsProduct(nx, ny);
    TileFitsByLast(len, 0, ny, nx, ny);
    if nx >= 1 {
      MulIsProduct(nx - 1, ny);
    }
  }

  /** The addresses of one sstore of the streaming copy: chunk y0 .. y0 + w
      of row x, in the output and in the buffer. */
  lemma ChunkPositions(outOff: nat, sOut: nat, n: nat, x: nat, y0: nat, w: nat, outPos: int, bufPos: int,
                       outLen: nat, bufLen: nat, nx: nat)
    requires outPos == outOff + x * sOut + y0 && bufPos == x * n + y0
    requires x < nx && 1 <= w && y0 + w <= n && n <= sOut
    requires TileFits(outLen, outOff, sOut, nx, n) && TileFits(bufLen, 0, n, nx, n)
    ensures outPos == Addr(outOff, sOut, x, 0) + y0 && outPos + w <= outLen
    ensures bufPos == Addr(0, n, x, 0) + y0 && bufPos + w <= bufLen
  {
    MulIsProduct(x, sOut);
    MulIsProduct(x, n);
    assert 0 <= Addr(outOff, sOut, x, y0 + w - 1) < outLen;
    assert 0 <= Addr(0, n, x, y0 + w - 1) < bufLen;
  }

  /** KernelTrans<FloatType, TYPE, UPDATE_OUT> of the IBM back-end. */
  class MicroKernel {
    const width: Width
    const update: bool
    /** check_stream, left uninterpreted. */
    const checkStream: nat -> bool
    var alpha: int
    var beta: int

    constructor(t: FloatKind, k: KernelType, update: bool, checkStream: nat -> bool)
      ensures width == IbmKernelTypes.KnWidth(t, k)
      ensures this.update == update && this.checkStream == checkStream
    {
      width := IbmKernelTypes.KnWidth(t, k);
      this.update := update;
      this.checkStream := checkStream;
      alpha := 0;
      beta := 0;
    }

    function Scale(): Scaling
      reads this
    {
      Scaling(update, alpha, beta)
    }

    method SetCoef(alpha: int, beta: int)
      modifies this
      ensures this.alpha == alpha && this.beta == beta
    {
      this.alpha := alpha;
      this.beta := beta;
    }

    /** exec: output element c of row r becomes the scaled input element r
        of row c, for the whole width x width tile; nothing else changes. */
    method Exec(input: array<int>, inPos: nat, output: array<int>, outPos: nat, sIn: nat, sOut: nat)
      requires input != output
      requires Geometry(inPos, sIn, outPos, sOut, width, width).Fits(input.Length, output.Length)
      modifies output
      ensures RectDone(Geometry(inPos, sIn, outPos, sOut, width, width), Scale(), input[..],
                       old(output[..]), output[..], 0, width, 0, width)
    {
      var rows := seq(width, r requires 0 <= r < width reads this, input, output =>
                    seq(width, c requires 0 <= c < width reads this, input, output =>
                      Scale().Apply(input[Addr(inPos, sIn, c, r)], output[Addr(outPos, sOut, r, c)])));
      StoreRows(output, outPos, sOut, rows, width);
    }

    /** sstore: copies `width` contiguous elements of the buffer. */
    method SStore(output: array<int>, outPos: nat, buffer: array<int>, bufPos: nat)
      requires output != buffer
      requires outPos + width <= output.Length && bufPos + width <= buffer.Length
      modifies output
      ensures forall i :: outPos <= i < outPos + width ==> output[i] == buffer[bufPos + (i - outPos)]
      ensures forall i :: 0 <= i < output.Length && !(outPos <= i < outPos + width) ==> output[i] == old(output[i])
    {
      Store(output, outPos, buffer[bufPos..bufPos + width]);
    }
  }

  /** MacroTrans<MicroKernel, SIZE_IN_INLD, SIZE_IN_OUTLD>. */
  class MacroTrans {
    const kernel: MicroKernel
    const knWidth: Width
    const sizeInInld: nat
    const sizeInOutld: nat

    ghost predicate Valid()
    {
      knWidth == kernel.width && sizeInInld >= 1 && sizeInOutld >= 1
    }

    constructor(kernel: MicroKernel, sizeInInld: nat, sizeInOutld: nat)
      requires sizeInInld >= 1 && sizeInOutld >= 1
      ensures Valid() && knWidth == kernel.width
      ensures this.kernel == kernel && this.sizeInInld == sizeInInld && this.sizeInOutld == sizeInOutld
    {
      this.kernel := kernel;
      knWidth := kernel.width;
      this.sizeInInld := sizeInInld;
      this.sizeInOutld := sizeInOutld;
    }

    /** get_cont_len: elements of the block along the input's leading
        dimension, SIZE_IN_INLD whole micro-kernel tiles. */
    function GetContLen(): (r: nat)
      ensures r % knWidth == 0 && r / knWidth == sizeInInld
      ensures Valid() ==> r == sizeInInld * kernel.width && r >= kernel.width
    {
      DivModOf(sizeInInld * knWidth, sizeInInld, 0, knWidth);
      sizeInInld * knWidth
    }

    /** get_ncont_len: elements of the block along the output's leading
        dimension, SIZE_IN_OUTLD whole micro-kernel tiles. */
    function GetNcontLen(): (r: nat)
      ensures r % knWidth == 0 && r / knWidth == sizeInOutld
      ensures Valid() ==> r == sizeInOutld * kernel.width && r >= kernel.width
    {
      DivModOf(sizeInOutld * knWidth, sizeInOutld, 0, knWidth);
      sizeInOutld * knWidth
    }

    function Block(inOff: nat, sIn: nat, outOff: nat, sOut: nat): Geometry
    {
      Geometry(inOff, sIn, outOff, sOut, GetContLen(), GetNcontLen())
    }

    method SetCoef(alpha: int, beta: int)
      modifies kernel
      ensures kernel.alpha == alpha && kernel.beta == beta
    {
      kernel.SetCoef(alpha, beta);
    }

    /** The micro-kernel call of tile_outld_<i, o>: tile (i, o), at the
        offsets the source computes (simplified for o = 0). */
    method ExecTile(i: nat, o: nat, input: array<int>, inOff: nat, output: array<int>, outOff: nat,
                    sIn: nat, sOut: nat)
      requires Valid() && input != output
      requires i < sizeInInld && o < sizeInOutld
      requires Block(inOff, sIn, outOff, sOut).Fits(input.Length, output.Length)
      modifies output
      ensures RectDone(Block(inOff, sIn, outOff, sOut), kernel.Scale(), input[..], old(output[..]), output[..],
                       Mul(i, knWidth), Mul(i, knWidth) + knWidth, Mul(o, knWidth), Mul(o, knWidth) + knWidth)
    {
      var w := knWidth;
      ghost var g := Block(inOff, sIn, outOff, sOut);
      MulIsProduct(sizeInInld, w);
      MulIsProduct(sizeInOutld, w);
      MulMono(i + 1, sizeInInld, w);
      MulMono(o + 1, sizeInOutld, w);
      SubTileFitsBlock(g, input.Length, output.Length, w, Mul(i, w), Mul(o, w));
      var inPos: int, outPos: int;
      if o > 0 {
        inPos, outPos := inOff + i * w + o * w * sIn, outOff + o * w + i * w * sOut;
      } else {
        inPos, outPos := inOff + i * w, outOff + i * w * sOut;
      }
      TileOrigin(inOff, sIn, w, o, i, inPos);
      TileOrigin(outOff, sOut, w, i, o, outPos);
      kernel.Exec(input, inPos, output, outPos, sIn, sOut);
      TileIsRect(g, kernel.Scale(), input[..], old(output[..]), output[..], w, Mul(i, w), Mul(o, w));
    }

    /** tile_outld_<i, o>: the tiles (i, 0) .. (i, o), in that order. */
    method TileOutld(i: nat, o: nat, input: array<int>, inOff: nat, output: array<int>, outOff: nat,
                     sIn: nat, sOut: nat) returns (ghost calls: seq<(nat, nat)>)
      requires Valid() && input != output
      requires i < sizeInInld && o < sizeInOutld
      requires Block(inOff, sIn, outOff, sOut).Fits(input.Length, output.Length)
      modifies output
      decreases o
      ensures calls == TileOutldOrder(i, o)
      ensures RectDone(Block(inOff, sIn, outOff, sOut), kernel.Scale(), input[..], old(output[..]), output[..],
                       Mul(i, knWidth), Mul(i, knWidth) + knWidth, 0, Mul(o + 1, knWidth))
    {
      if o > 0 {
        calls := TileOutld(i, o - 1, input, inOff, output, outOff, sIn, sOut);
        ghost var mid := output[..];
        ExecTile(i, o, input, inOff, output, outOff, sIn, sOut);
        RectThenY(Block(inOff, sIn, outOff, sOut), kernel.Scale(), input[..], old(output[..]), mid, output[..],
                  Mul(i, knWidth), Mul(i, knWidth) + knWidth, 0, Mul(o, knWidth), Mul(o + 1, knWidth));
        calls := calls + [(i, o)];
      } else {
        ExecTile(i, 0, input, inOff, output, outOff, sIn, sOut);
        calls := [(i, 0)];
      }
    }

    /** tile_inld_<I, O>: tile_inld_<I - 1, O>, then the row of tiles
        tile_outld_<I - 1, O - 1>; nothing for I = 0. */
    method TileInld(I: nat, O: nat, input: array<int>, inOff: nat, output: array<int>, outOff: nat,
                    sIn: nat, sOut: nat) returns (ghost calls: seq<(nat, nat)>)
      requires Valid() && input != output
      requires I <= sizeInInld && 1 <= O <= sizeInOutld
      requires Block(inOff, sIn, outOff, sOut).Fits(input.Length, output.Length)
      modifies output
      decreases I
      ensures calls == TileInldOrder(I, O)
      ensures RectDone(Block(inOff, sIn, outOff, sOut), kernel.Scale(), input[..], old(output[..]), output[..],
                       0, Mul(I, knWidth), 0, Mul(O, knWidth))
    {
      if I > 0 {
        calls := TileInld(I - 1, O, input, inOff, output, outOff, sIn, sOut);
        ghost var mid := output[..];
        ghost var row := TileOutld(I - 1, O - 1, input, inOff, output, outOff, sIn, sOut);
        RectThenX(Block(inOff, sIn, outOff, sOut), kernel.Scale(), input[..], old(output[..]), mid, output[..],
                  0, Mul(I - 1, knWidth), Mul(I, knWidth), 0, Mul(O, knWidth));
        calls := calls + row;
      } else {
        calls := [];
      }
    }

    /** The copy loops of exec's streaming path: row x of the buffer
        (stride NUM_IN_OUTLD) goes to row x of the output block, KN_WIDTH
        elements per sstore. */
    method StreamCopy(output: array<int>, outOff: nat, sOut: nat, buffer: array<int>)
      requires Valid() && output != buffer
      requires TileFits(buffer.Length, 0, GetNcontLen(), GetContLen(), GetNcontLen())
      requires TileFits(output.Length, outOff, sOut, GetContLen(), GetNcontLen()) && GetNcontLen() <= sOut
      modifies output
      ensures forall x: nat, y :: 0 <= x < GetContLen() && 0 <= y < GetNcontLen() ==>
                output[Addr(outOff, sOut, x, y)] == buffer[Addr(0, GetNcontLen(), x, y)]
      ensures forall i :: 0 <= i < output.Length && !InTile(i, outOff, sOut, GetContLen(), GetNcontLen()) ==>
                output[i] == old(output[i])
    {
      var numInInld := knWidth * sizeInInld;
      var numInOutld := knWidth * sizeInOutld;
      var idxInld := 0;
      while idxInld < numInInld
        invariant 0 <= idxInld <= numInInld
        invariant forall x: nat, y :: 0 <= x < idxInld && 0 <= y < numInOutld ==>
                    output[Addr(outOff, sOut, x, y)] == buffer[Addr(0, numInOutld, x, y)]
        invariant forall i :: 0 <= i < output.Length && !InTile(i, outOff, sOut, idxInld, numInOutld) ==>
                    output[i] == old(output[i])
      {
        ghost var before := output[..];
        ghost var row := Addr(outOff, sOut, idxInld, 0);
        StreamRow(output, outOff, sOut, buffer, idxInld);
        forall x: nat, y | 0 <= x < idxInld && 0 <= y < numInOutld
          ensures output[Addr(outOff, sOut, x, y)] == buffer[Addr(0, numInOutld, x, y)]
        {
          RowBelow(outOff, sOut, x, y, idxInld);
          assert output[Addr(outOff, sOut, x, y)] == before[Addr(outOff, sOut, x, y)];
        }
        forall i | 0 <= i < output.Length && !InTile(i, outOff, sOut, idxInld + 1, numInOutld)
          ensures output[i] == old(output[i])
        {
          if row <= i < row + numInOutld {
            AddrInRow(outOff, sOut, idxInld, i - row);
            assert false;
          }
          assert !InTile(i, outOff, sOut, idxInld, numInOutld);
          assert output[i] == before[i];
        }
        idxInld := idxInld + 1;
      }
    }

    /** The inner copy loop of StreamCopy for row x: NUM_IN_OUTLD elements,
        KN_WIDTH per sstore; nothing outside the row changes. */
    method StreamRow(output: array<int>, outOff: nat, sOut: nat, buffer: array<int>, x: nat)
      requires Valid() && output != buffer && x < GetContLen()
      requires TileFits(buffer.Length, 0, GetNcontLen(), GetContLen(), GetNcontLen())
      requires TileFits(output.Length, outOff, sOut, GetContLen(), GetNcontLen()) && GetNcontLen() <= sOut
      modifies output
      ensures forall y :: 0 <= y < GetNcontLen() ==>
                output[Addr(outOff, sOut, x, y)] == buffer[Addr(0, GetNcontLen(), x, y)]
      ensures forall i :: (0 <= i < output.Length &&
                             !(Addr(outOff, sOut, x, 0) <= i < Addr(outOff, sOut, x, 0) + GetNcontLen())) ==>
                output[i] == old(output[i])
    {
      var w := knWidth;
      var numInOutld := w * sizeInOutld;
      MulIsProduct(sizeInOutld, w);
      var idxOutld := 0;
      ghost var j: nat := 0;
      ghost var row := Addr(outOff, sOut, x, 0);
      while idxOutld < numInOutld
        invariant idxOutld == Mul(j, w) && j <= sizeInOutld && idxOutld <= numInOutld
        invariant forall y :: 0 <= y < idxOutld ==>
                    output[Addr(outOff, sOut, x, y)] == buffer[Addr(0, numInOutld, x, y)]
        invariant forall i :: 0 <= i < output.Length && !(row <= i < row + idxOutld) ==> output[i] == old(output[i])
      {
        MulMono(j + 1, sizeInOutld, w);
        ghost var before := output[..];
        var outPos := outOff + x * sOut + idxOutld;
        var bufPos := x * numInOutld + idxOutld;
        ChunkPositions(outOff, sOut, numInOutld, x, idxOutld, w, outPos, bufPos,
                       output.Length, buffer.Length, GetContLen());
        kernel.SStore(output, outPos, buffer, bufPos);
        forall y | 0 <= y < idxOutld + w
          ensures output[Addr(outOff, sOut, x, y)] == buffer[Addr(0, numInOutld, x, y)]
        {
          AddrInRow(outOff, sOut, x, y);
          AddrInRow(0, numInOutld, x, y);
          if y < idxOutld {
            assert output[Addr(outOff, sOut, x, y)] == before[Addr(outOff, sOut, x, y)];
          }
        }
        idxOutld := idxOutld + w;
        j := j + 1;
      }
      if j < sizeInOutld {
        MulMono(j + 1, sizeInOutld, w);
        assert false;
      }
    }

    /** exec: transposes the GetContLen() x GetNcontLen() block, either
        straight into the output or, when the output is not updated, is
        aligned and check_stream accepts NUM_IN_OUTLD, through a buffer
        copied out by streaming stores. Both paths give the same result. */
    method Exec(input: array<int>, inOff: nat, output: array<int>, outOff: nat, sIn: nat, sOut: nat,
                aligned: bool) returns (ghost streamed: bool, ghost calls: seq<(nat, nat)>)
      requires Valid() && input != output
      requires Block(inOff, sIn, outOff, sOut).Fits(input.Length, output.Length)
      modifies output
      ensures streamed <==> !kernel.update && aligned && kernel.checkStream(GetNcontLen())
      ensures calls == TileInldOrder(sizeInInld, sizeInOutld)
      ensures RectDone(Block(inOff, sIn, outOff, sOut), kernel.Scale(), input[..], old(output[..]), output[..],
                       0, GetContLen(), 0, GetNcontLen())
    {
      var w := knWidth;
      MulIsProduct(sizeInInld, w);
      MulIsProduct(sizeInOutld, w);
      var numInOutld := w * sizeInOutld;
      var useStreaming := !kernel.update && aligned && kernel.checkStream(numInOutld);
      streamed := useStreaming;
      if useStreaming {
        var numInInld := w * sizeInInld;
        var buffer := new int[numInInld * numInOutld];
        BufferFits(buffer.Length, numInInld, numInOutld);
        ghost var initial := buffer[..];
        calls := TileInld(sizeInInld, sizeInOutld, input, inOff, buffer, 0, sIn, numInOutld);
        ghost var tiled := buffer[..];
        StreamCopy(output, outOff, sOut, buffer);
        assert RectDone(Block(inOff, sIn, 0, numInOutld), kernel.Scale(), input[..], initial, tiled,
                        0, numInInld, 0, numInOutld);
      } else {
        calls := TileInld(sizeInInld, sizeInOutld, input, inOff, output, outOff, sIn, sOut);
      }
    }
  }
}
