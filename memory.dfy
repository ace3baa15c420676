/*
 * Flat strided memory. A pointer is an array and an element offset into it;
 * a tile of `nx` rows of `ny` contiguous elements with row stride `s`
 * starting at `base` occupies the cells Addr(base, s, x, y).
 */
module Memory {

  /** x * s, unfolded one row at a time so that offset reasoning stays
      linear; MulIsProduct ties it to `*`. */
  function Mul(x: nat, s: nat): nat
  {
    if x == 0 then 0 else Mul(x - 1, s) + s
  }

  lemma {:induction false} MulIsProduct(x: nat, s: nat)
    ensures Mul(x, s) == x * s
  {
    if x > 0 {
      MulIsProduct(x - 1, s);
    }
  }

  lemma {:induction false} MulAdd(a: nat, b: nat, s: nat)
    ensures Mul(a + b, s) == Mul(a, s) + Mul(b, s)
  {
    if b > 0 {
      MulAdd(a, b - 1, s);
    }
  }

  lemma MulMono(a: nat, b: nat, s: nat)
    requires a <= b
    ensures Mul(a, s) <= Mul(b, s)
  {
    MulAdd(a, b - a, s);
  }

  /** Offset of element `y` of row `x`. */
  function Addr(base: int, s: nat, x: nat, y: int): int
  {
    base + Mul(x, s) + y
  }

  /** Every cell of the tile is a valid index of an array of length `len`. */
  predicate TileFits(len: nat, base: int, s: nat, nx: nat, ny: nat)
  {
    forall x: nat, y: int :: 0 <= x < nx && 0 <= y < ny ==> 0 <= Addr(base, s, x, y) < len
  }

  /** `i` is one of the cells of the tile. */
  ghost predicate InTile(i: int, base: int, s: nat, nx: nat, ny: nat)
  {
    exists x: nat, y: int :: 0 <= x < nx && 0 <= y < ny && i == Addr(base, s, x, y)
  }

  /** A tile fits when its last cell does. */
  lemma TileFitsByLast(len: nat, base: nat, s: nat, nx: nat, ny: nat)
    requires nx >= 1 && ny >= 1 ==> base + Mul(nx - 1, s) + ny <= len
    ensures TileFits(len, base, s, nx, ny)
  {
    forall x: nat, y: int | 0 <= x < nx && 0 <= y < ny
      ensures 0 <= Addr(base, s, x, y) < len
    {
      MulMono(x, nx - 1, s);
    }
  }

  /** Rows no longer than the stride do not overlap: an address determines
      its row and column. */
  lemma AddrInjective(base: int, s: nat, x1: nat, y1: nat, x2: nat, y2: nat)
    requires y1 < s && y2 < s
    requires Addr(base, s, x1, y1) == Addr(base, s, x2, y2)
    ensures x1 == x2 && y1 == y2
  {
    if x1 < x2 {
      MulMono(x1 + 1, x2, s);
      assert false;
    } else if x2 < x1 {
      MulMono(x2 + 1, x1, s);
      assert false;
    }
  }

  /** The cells of a tile lying below row `k` come before row `k`. */
  lemma RowBelow(base: int, s: nat, x: nat, y: nat, k: nat)
    requires x < k && y < s
    ensures Addr(base, s, x, y) < Addr(base, s, k, 0)
  {
    MulMono(x + 1, k, s);
  }

  /** Row `x` is contiguous from its first cell. */
  lemma AddrInRow(base: int, s: nat, x: nat, y: int)
    ensures Addr(base, s, x, y) == Addr(base, s, x, 0) + y
  {
  }

  /** A sub-tile at (x0, y0) of a tile, seen from its own base. */
  lemma AddrShift(base: int, s: nat, x0: nat, y0: int, r: nat, c: int)
    ensures Addr(Addr(base, s, x0, y0), s, r, c) == Addr(base, s, x0 + r, y0 + c)
  {
    MulAdd(x0, r, s);
  }

  /** A tile placed at (x0, y0) inside a fitting tile fits too. */
  lemma SubTileFits(len: nat, base: int, s: nat, nx: nat, ny: nat, x0: nat, y0: nat, mx: nat, my: nat)
    requires TileFits(len, base, s, nx, ny)
    requires x0 + mx <= nx && y0 + my <= ny
    ensures TileFits(len, Addr(base, s, x0, y0), s, mx, my)
  {
    forall x: nat, y: int | 0 <= x < mx && 0 <= y < my
      ensures 0 <= Addr(Addr(base, s, x0, y0), s, x, y) < len
    {
      AddrShift(base, s, x0, y0, x, y);
    }
  }

  /** Every cell of a sub-tile is a cell of the enclosing tile. */
  lemma SubTileInside(i: int, base: int, s: nat, nx: nat, ny: nat, x0: nat, y0: nat, mx: nat, my: nat)
    requires x0 + mx <= nx && y0 + my <= ny
    requires InTile(i, Addr(base, s, x0, y0), s, mx, my)
    ensures InTile(i, base, s, nx, ny)
  {
    var x: nat, y :| 0 <= x < mx && 0 <= y < my && i == Addr(Addr(base, s, x0, y0), s, x, y);
    AddrShift(base, s, x0, y0, x, y);
    assert i == Addr(base, s, x0 + x, y0 + y);
  }

  /** A cell (x, y) of a tile whose rows do not overlap lies in the
      sub-tile at (x0, y0) only if its coordinates fall inside it. */
  lemma NotInSubTile(base: int, s: nat, x: nat, y: nat, x0: nat, y0: nat, mx: nat, my: nat)
    requires y < s && y0 + my <= s
    requires !(x0 <= x < x0 + mx && y0 <= y < y0 + my)
    ensures !InTile(Addr(base, s, x, y), Addr(base, s, x0, y0), s, mx, my)
  {
    if InTile(Addr(base, s, x, y), Addr(base, s, x0, y0), s, mx, my) {
      var r: nat, c :| 0 <= r < mx && 0 <= c < my && Addr(base, s, x, y) == Addr(Addr(base, s, x0, y0), s, r, c);
      AddrShift(base, s, x0, y0, r, c);
      AddrInjective(base, s, x, y, x0 + r, y0 + c);
      assert false;
    }
  }

  /** The contiguous elements `off .. off + n` of `a`. */
  function Load<T>(a: array<T>, off: nat, n: nat): (v: seq<T>)
    requires off + n <= a.Length
    reads a
    ensures |v| == n
    ensures forall j :: 0 <= j < n ==> v[j] == a[off + j]
  {
    a[off..off + n]
  }

  /** Rows `0 .. nx` of `n` elements each, at stride `s`. */
  function LoadRows<T>(a: array<T>, base: nat, s: nat, nx: nat, n: nat): (rows: seq<seq<T>>)
    requires n >= 1
    requires TileFits(a.Length, base, s, nx, n)
    reads a
    ensures |rows| == nx
    ensures forall x :: 0 <= x < nx ==> |rows[x]| == n
    ensures forall x: nat, y :: 0 <= x < nx && 0 <= y < n ==> rows[x][y] == a[Addr(base, s, x, y)]
  {
    seq(nx, x requires 0 <= x < nx reads a =>
      assert Addr(base, s, x, n - 1) < a.Length; Load(a, Addr(base, s, x, 0), n))
  }

  /** Writes `v` to `a[off .. off + |v|]`, leaving every other cell alone. */
  method Store<T>(a: array<T>, off: nat, v: seq<T>)
    requires off + |v| <= a.Length
    modifies a
    ensures forall j :: 0 <= j < |v| ==> a[off + j] == v[j]
    ensures forall i :: 0 <= i < a.Length && !(off <= i < off + |v|) ==> a[i] == old(a[i])
  {
    var j := 0;
    while j < |v|
      invariant 0 <= j <= |v|
      invariant forall k :: 0 <= k < j ==> a[off + k] == v[k]
      invariant forall i :: 0 <= i < a.Length && !(off <= i < off + j) ==> a[i] == old(a[i])
    {
      a[off + j] := v[j];
      j := j + 1;
    }
  }

  /** Writes row `x` of `rows` to the cells Addr(base, s, x, _), one row
      after the other; cells outside the tile keep their value. */
  method StoreRows<T>(a: array<T>, base: nat, s: nat, rows: seq<seq<T>>, n: nat)
    requires forall x :: 0 <= x < |rows| ==> |rows[x]| == n
    requires 1 <= n <= s
    requires TileFits(a.Length, base, s, |rows|, n)
    modifies a
    ensures forall x: nat, y :: 0 <= x < |rows| && 0 <= y < n ==> a[Addr(base, s, x, y)] == rows[x][y]
    ensures forall i :: 0 <= i < a.Length && !InTile(i, base, s, |rows|, n) ==> a[i] == old(a[i])
  {
    var k := 0;
    while k < |rows|
      invariant 0 <= k <= |rows|
      invariant forall x: nat, y :: 0 <= x < k && 0 <= y < n ==> a[Addr(base, s, x, y)] == rows[x][y]
      invariant forall i :: 0 <= i < a.Length && !InTile(i, base, s, k, n) ==> a[i] == old(a[i])
    {
      ghost var before := a[..];
      var off := Addr(base, s, k, 0);
      assert Addr(base, s, k, n - 1) < a.Length;
      Store(a, off, rows[k]);
      forall x: nat, y | 0 <= x < k + 1 && 0 <= y < n
        ensures a[Addr(base, s, x, y)] == rows[x][y]
      {
        if x < k {
          RowBelow(base, s, x, y, k);
          assert a[Addr(base, s, x, y)] == before[Addr(base, s, x, y)];
        } else {
          assert Addr(base, s, x, y) == off + y;
        }
      }
      forall i | 0 <= i < a.Length && !InTile(i, base, s, k + 1, n)
        ensures a[i] == old(a[i])
      {
        if off <= i < off + n {
          AddrInRow(base, s, k, i - off);
          assert false;
        }
      }
      k := k + 1;
    }
  }
}
