/*
 * The documented contract of create_cgraph_trans: the reference semantics
 * of a transpose, B[perm(i)] = alpha * A[i] + beta * B[perm(i)], the six
 * conditions under which no graph is returned, and the tuning budget
 * selected by max_num_cand.
 *
 * A tensor is a function from multi-indices (one index per order) to
 * values; a permutation `perm` sends the multi-index i to the multi-index
 * whose position k holds i[perm[k]], the rule the generated constructors
 * also use for the output size.
 */
module TransApi {
  import opened TransTypes

  /** Position k of the result holds s[perm[k]]. */
  function Permuted<T>(s: seq<T>, perm: seq<nat>): (r: seq<T>)
    requires forall k :: 0 <= k < |perm| ==> perm[k] < |s|
    ensures |r| == |perm|
    ensures forall k :: 0 <= k < |perm| ==> r[k] == s[perm[k]]
  {
    seq(|perm|, k requires 0 <= k < |perm| => s[perm[k]])
  }

  predicate Distinct(p: seq<nat>)
  {
    forall a, b :: 0 <= a < b < |p| ==> p[a] != p[b]
  }

  /** n entries, each below n. */
  predicate Indexes(perm: seq<nat>, n: nat)
  {
    |perm| == n && forall k :: 0 <= k < n ==> perm[k] < n
  }

  /** `perm` is a valid permutation of 0 .. n - 1: n entries, each below n,
      no two alike. */
  predicate IsPermutation(perm: seq<nat>, n: nat)
  {
    Indexes(perm, n) && Distinct(perm)
  }

  lemma {:induction false} SubsetCard<T>(a: set<T>, b: set<T>)
    requires a <= b
    ensures |a| <= |b|
    decreases |b|
  {
    if a != {} {
      var x :| x in a;
      SubsetCard(a - {x}, b - {x});
    }
  }

  /** The values below n. */
  function Below(n: nat): (r: set<nat>)
    ensures forall v :: v in r <==> 0 <= v < n
    ensures |r| == n
  {
    if n == 0 then {} else
      var below := Below(n - 1);
      assert n - 1 !in below;
      below + {n - 1}
  }

  /** The entries of `p`, as a set. */
  function Elems(p: seq<nat>): (r: set<nat>)
    ensures forall x :: x in r <==> x in p
  {
    if p == [] then {} else {p[0]} + Elems(p[1..])
  }

  lemma {:induction false} DistinctCard(p: seq<nat>)
    requires Distinct(p)
    ensures |Elems(p)| == |p|
  {
    if p != [] {
      DistinctCard(p[1..]);
      assert p[0] !in p[1..];
    }
  }

  /** Pigeonhole: n distinct entries below n take every value below n. */
  lemma PermutationOnto(perm: seq<nat>, n: nat)
    requires IsPermutation(perm, n)
    ensures forall m :: 0 <= m < n ==> m in perm
  {
    forall m | 0 <= m < n
      ensures m in perm
    {
      if m !in perm {
        var entries := Elems(perm);
        var others := Below(n) - {m};
        DistinctCard(perm);
        SubsetCard(entries, others);
        assert false;
      }
    }
  }

  /** The position of `m` in `p`. */
  function IndexOf(p: seq<nat>, m: nat): (k: nat)
    requires m in p
    ensures k < |p| && p[k] == m
  {
    if p[0] == m then 0 else 1 + IndexOf(p[1..], m)
  }

  /** The inverse permutation: position m holds the k with perm[k] == m. */
  function Inverse(perm: seq<nat>): (inv: seq<nat>)
    requires IsPermutation(perm, |perm|)
    ensures |inv| == |perm|
    ensures forall m :: 0 <= m < |perm| ==> inv[m] < |perm| && perm[inv[m]] == m
  {
    PermutationOnto(perm, |perm|);
    seq(|perm|, m requires 0 <= m < |perm| => IndexOf(perm, m))
  }

  /** The inverse undoes the permutation from both sides, and is one. */
  lemma InverseFacts(perm: seq<nat>)
    requires IsPermutation(perm, |perm|)
    ensures forall k :: 0 <= k < |perm| ==> Inverse(perm)[perm[k]] == k
    ensures IsPermutation(Inverse(perm), |perm|)
  {
    var inv := Inverse(perm);
    forall k | 0 <= k < |perm|
      ensures inv[perm[k]] == k
    {
      assert perm[inv[perm[k]]] == perm[k];
    }
    forall a, b | 0 <= a < b < |perm|
      ensures inv[a] != inv[b]
    {
      assert perm[inv[a]] == a && perm[inv[b]] == b;
    }
  }

  /** Permuting by `perm` and then by its inverse gives back the sequence,
      and so does the other order. */
  lemma PermutedRoundTrip<T>(s: seq<T>, perm: seq<nat>)
    requires IsPermutation(perm, |s|)
    ensures Permuted(Permuted(s, perm), Inverse(perm)) == s
    ensures Permuted(Permuted(s, Inverse(perm)), perm) == s
  {
    InverseFacts(perm);
    var inv := Inverse(perm);
    var p := Permuted(s, perm);
    var q := Permuted(s, inv);
    forall m | 0 <= m < |s|
      ensures Permuted(p, inv)[m] == s[m] && Permuted(q, perm)[m] == s[m]
    {
      assert Permuted(p, inv)[m] == p[inv[m]] == s[perm[inv[m]]];
      assert Permuted(q, perm)[m] == q[perm[m]] == s[inv[perm[m]]];
    }
  }

  /** The largest value removed from a permutation leaves a permutation of
      one fewer values. */
  lemma DropLargest(perm: seq<nat>, n: nat, k: nat)
    requires IsPermutation(perm, n) && n > 0
    requires k < n && perm[k] == n - 1
    ensures IsPermutation(perm[..k] + perm[k + 1..], n - 1)
  {
    var q := perm[..k] + perm[k + 1..];
    assert forall j :: 0 <= j < n - 1 ==> q[j] == (if j < k then perm[j] else perm[j + 1]);
    forall j | 0 <= j < n - 1
      ensures q[j] < n - 1
    {
      if j < k {
        assert perm[j] != perm[k];
      } else {
        assert perm[j + 1] != perm[k];
      }
    }
  }

  /** Permuting by `perm` is permuting the rest by `perm` without its
      largest value and putting the last element at that value's place. */
  lemma PermutedSplit<T>(s: seq<T>, perm: seq<nat>, k: nat)
    requires IsPermutation(perm, |s|) && |s| > 0
    requires k < |s| && perm[k] == |s| - 1
    ensures IsPermutation(perm[..k] + perm[k + 1..], |s| - 1)
    ensures var a := Permuted(s[..|s| - 1], perm[..k] + perm[k + 1..]);
            Permuted(s, perm) == a[..k] + [s[|s| - 1]] + a[k..]
  {
    var n := |s|;
    DropLargest(perm, n, k);
    var q := perm[..k] + perm[k + 1..];
    var a := Permuted(s[..n - 1], q);
    var r := a[..k] + [s[n - 1]] + a[k..];
    forall j | 0 <= j < n
      ensures Permuted(s, perm)[j] == r[j]
    {
      if j < k {
        assert q[j] == perm[j];
      } else if j > k {
        assert q[j - 1] == perm[j];
      }
    }
  }

  lemma MultisetInsert<T>(a: seq<T>, x: T, k: nat)
    requires k <= |a|
    ensures multiset(a[..k] + [x] + a[k..]) == multiset(a) + multiset{x}
  {
    assert a == a[..k] + a[k..];
  }

  /** A permuted sequence holds the same elements, each as often. */
  lemma {:induction false} PermutedRearranges<T>(s: seq<T>, perm: seq<nat>)
    requires IsPermutation(perm, |s|)
    ensures multiset(Permuted(s, perm)) == multiset(s)
    decreases |s|
  {
    var n := |s|;
    if n > 0 {
      PermutationOnto(perm, n);
      var k := IndexOf(perm, n - 1);
      var q := perm[..k] + perm[k + 1..];
      DropLargest(perm, n, k);
      var s' := s[..n - 1];
      PermutedRearranges(s', q);
      var a := Permuted(s', q);
      PermutedSplit(s, perm, k);
      MultisetInsert(a, s[n - 1], k);
      assert s == s' + [s[n - 1]];
    }
  }

  /** Each index of `i` lies below the matching extent of `size`. */
  predicate InBounds(i: seq<nat>, size: seq<nat>)
  {
    |i| == |size| && forall k :: 0 <= k < |i| ==> i[k] < size[k]
  }

  /** Permuting a multi-index keeps it within the permuted extents, and
      only an index within the extents permutes into them. */
  lemma PermutedInBounds(i: seq<nat>, size: seq<nat>, perm: seq<nat>)
    requires IsPermutation(perm, |size|) && |i| == |size|
    ensures InBounds(i, size) <==> InBounds(Permuted(i, perm), Permuted(size, perm))
  {
    if InBounds(Permuted(i, perm), Permuted(size, perm)) {
      PermutationOnto(perm, |size|);
      forall m | 0 <= m < |i|
        ensures i[m] < size[m]
      {
        var k := IndexOf(perm, m);
        assert Permuted(i, perm)[k] < Permuted(size, perm)[k];
      }
    }
  }

  /** The reference semantics: for every multi-index i within the input
      extents, B'[perm(i)] = alpha * A[i] + beta * B[perm(i)]. */
  ghost predicate IsTranspose(a: seq<nat> -> int, b: seq<nat> -> int, b': seq<nat> -> int,
                              inSize: seq<nat>, perm: seq<nat>, alpha: int, beta: int)
    requires Indexes(perm, |inSize|)
  {
    forall i :: InBounds(i, inSize) ==> b'(Permuted(i, perm)) == alpha * a(i) + beta * b(Permuted(i, perm))
  }

  /** The reference output, cell by cell: output index j reads the input
      at the inverse permutation of j. */
  function Transposed(a: seq<nat> -> int, b: seq<nat> -> int, perm: seq<nat>, alpha: int, beta: int): seq<nat> -> int
    requires IsPermutation(perm, |perm|)
  {
    j => if |j| == |perm| then alpha * a(Permuted(j, Inverse(perm))) + beta * b(j) else b(j)
  }

  /** The cell-by-cell output meets the reference semantics. */
  lemma TransposedIsTranspose(a: seq<nat> -> int, b: seq<nat> -> int, inSize: seq<nat>, perm: seq<nat>,
                              alpha: int, beta: int)
    requires IsPermutation(perm, |inSize|)
    ensures IsTranspose(a, b, Transposed(a, b, perm, alpha, beta), inSize, perm, alpha, beta)
  {
    forall i: seq<nat> | InBounds(i, inSize)
      ensures Transposed(a, b, perm, alpha, beta)(Permuted(i, perm)) == alpha * a(i) + beta * b(Permuted(i, perm))
    {
      PermutedRoundTrip(i, perm);
    }
  }

  /** The reference semantics fixes every output cell within the output
      extents: two results meeting it agree there. */
  lemma TransposeDeterminesOutput(a: seq<nat> -> int, b: seq<nat> -> int, b1: seq<nat> -> int, b2: seq<nat> -> int,
                                  inSize: seq<nat>, perm: seq<nat>, alpha: int, beta: int, j: seq<nat>)
    requires IsPermutation(perm, |inSize|)
    requires IsTranspose(a, b, b1, inSize, perm, alpha, beta)
    requires IsTranspose(a, b, b2, inSize, perm, alpha, beta)
    requires InBounds(j, Permuted(inSize, perm))
    ensures b1(j) == b2(j)
  {
    var i := Permuted(j, Inverse(perm));
    PermutedRoundTrip(j, perm);
    PermutedInBounds(i, inSize, perm);
    assert Permuted(i, perm) == j;
  }

  /** Transposing with `perm` and then with its inverse, both with
      alpha = 1 and beta = 0, gives back the input. */
  lemma TransposeRoundTrip(a: seq<nat> -> int, b: seq<nat> -> int, b': seq<nat> -> int,
                           c: seq<nat> -> int, c': seq<nat> -> int, inSize: seq<nat>, perm: seq<nat>)
    requires IsPermutation(perm, |inSize|)
    requires IsTranspose(a, b, b', inSize, perm, 1, 0)
    requires IsTranspose(b', c, c', Permuted(inSize, perm), Inverse(perm), 1, 0)
    ensures forall i :: InBounds(i, inSize) ==> c'(i) == a(i)
  {
    forall i: seq<nat> | InBounds(i, inSize)
      ensures c'(i) == a(i)
    {
      var j := Permuted(i, perm);
      PermutedInBounds(i, inSize, perm);
      PermutedRoundTrip(i, perm);
      PermutedRoundTrip(inSize, perm);
      assert Permuted(j, Inverse(perm)) == i;
    }
  }

  /** perm = {1, 0} is a matrix transpose: B'[y, x] = alpha * A[x, y] + beta * B[y, x]. */
  lemma MatrixTranspose(a: seq<nat> -> int, b: seq<nat> -> int, b': seq<nat> -> int,
                        rows: nat, cols: nat, alpha: int, beta: int, x: nat, y: nat)
    requires IsTranspose(a, b, b', [rows, cols], [1, 0], alpha, beta)
    requires x < rows && y < cols
    ensures b'([y, x]) == alpha * a([x, y]) + beta * b([y, x])
  {
    assert InBounds([x, y], [rows, cols]);
    assert Permuted([x, y], [1, 0]) == [y, x];
  }

  /** A graph returned by the planner; its execution is not modelled. */
  datatype Graph = Graph(id: nat)

  /** The outer-size argument: the outer extents (empty for "same as the
      inner extents") and the offset of the sub-tensor in each order. */
  datatype OuterSize = OuterSize(size: seq<nat>, offset: seq<nat>)

  /** The arguments of create_cgraph_trans that decide whether a graph is
      returned. `perm` and both offsets are std::array<TensorOrder, ORDER>,
      so they always have ORDER entries. */
  datatype Request = Request(order: nat, inDataNull: bool, outDataNull: bool, inSize: seq<nat>,
                             perm: seq<nat>, inOuter: OuterSize, outOuter: OuterSize)

  predicate WellTyped(r: Request)
  {
    |r.perm| == r.order && |r.inOuter.offset| == r.order && |r.outOuter.offset| == r.order
  }

  /** An empty outer-size vector stands for the inner extents. */
  function DefaultOuter(outer: seq<nat>, inner: seq<nat>): (r: seq<nat>)
    ensures |outer| == 0 ==> r == inner
    ensures |outer| != 0 ==> r == outer
  {
    if |outer| == 0 then inner else outer
  }

  /** Conditions 3 and 4 hold: the extents can be read per order. */
  predicate Shaped(r: Request)
  {
    IsPermutation(r.perm, r.order) && |r.inSize| == r.order &&
    (|r.inOuter.size| == 0 || |r.inOuter.size| == r.order) &&
    (|r.outOuter.size| == 0 || |r.outOuter.size| == r.order)
  }

  /** The output extents: out_size[k] = in_size[perm[k]]. */
  function OutSize(r: Request): (s: seq<nat>)
    requires Shaped(r)
    ensures |s| == r.order
  {
    Permuted(r.inSize, r.perm)
  }

  /** Condition 5: some extent is zero, or an outer extent is smaller than
      its inner extent. */
  predicate BadExtent(r: Request)
    requires Shaped(r)
  {
    var inOuter := DefaultOuter(r.inOuter.size, r.inSize);
    var outOuter := DefaultOuter(r.outOuter.size, OutSize(r));
    exists k :: 0 <= k < r.order &&
      (r.inSize[k] == 0 || inOuter[k] == 0 || outOuter[k] == 0 ||
       inOuter[k] < r.inSize[k] || outOuter[k] < OutSize(r)[k])
  }

  /** Condition 6: some offset plus inner extent passes the outer extent. */
  predicate BadOffset(r: Request)
    requires Shaped(r) && WellTyped(r)
  {
    var inOuter := DefaultOuter(r.inOuter.size, r.inSize);
    var outOuter := DefaultOuter(r.outOuter.size, OutSize(r));
    exists k :: 0 <= k < r.order &&
      (r.inOuter.offset[k] + r.inSize[k] > inOuter[k] ||
       r.outOuter.offset[k] + OutSize(r)[k] > outOuter[k])
  }

  /** None of the six rejection conditions holds. */
  predicate Accepted(r: Request)
    requires WellTyped(r)
  {
    r.order > 1 && !r.inDataNull && !r.outDataNull && Shaped(r) && !BadExtent(r) && !BadOffset(r)
  }

  /** create_cgraph_trans: null under any of the six conditions, otherwise
      whatever the planner built. */
  function Create(r: Request, planned: Option<Graph>): (g: Option<Graph>)
    requires WellTyped(r)
    ensures r.order <= 1 ==> g.None?
    ensures r.inDataNull || r.outDataNull ==> g.None?
    ensures !IsPermutation(r.perm, r.order) ==> g.None?
    ensures |r.inSize| != r.order ==> g.None?
    ensures |r.inOuter.size| != 0 && |r.inOuter.size| != r.order ==> g.None?
    ensures |r.outOuter.size| != 0 && |r.outOuter.size| != r.order ==> g.None?
    ensures Shaped(r) && BadExtent(r) ==> g.None?
    ensures Shaped(r) && BadOffset(r) ==> g.None?
    ensures g.Some? ==> g == planned && Accepted(r)
    ensures Accepted(r) ==> g == planned
  {
    if Accepted(r) then planned else None
  }

  /** Element-wise sum of two multi-indices. */
  function Shift(i: seq<nat>, offset: seq<nat>): (r: seq<nat>)
    requires |i| == |offset|
    ensures |r| == |i| && forall k :: 0 <= k < |i| ==> r[k] == i[k] + offset[k]
  {
    seq(|i|, k requires 0 <= k < |i| => i[k] + offset[k])
  }

  /** On an accepted request every element the reference semantics reads
      or writes lies inside the outer tensors: input element i sits at
      i + in_offset within the input outer extents and its output cell at
      perm(i) + out_offset within the output outer extents. */
  lemma AcceptedStaysInside(r: Request, i: seq<nat>)
    requires WellTyped(r) && Accepted(r)
    requires InBounds(i, r.inSize)
    ensures InBounds(Shift(i, r.inOuter.offset), DefaultOuter(r.inOuter.size, r.inSize))
    ensures InBounds(Shift(Permuted(i, r.perm), r.outOuter.offset), DefaultOuter(r.outOuter.size, OutSize(r)))
  {
    PermutedInBounds(i, r.inSize, r.perm);
    var j := Permuted(i, r.perm);
    forall k | 0 <= k < r.order
      ensures Shift(j, r.outOuter.offset)[k] < DefaultOuter(r.outOuter.size, OutSize(r))[k]
    {
      assert j[k] < OutSize(r)[k];
    }
  }

  /** The tuning budget chosen by max_num_cand. */
  datatype Tuning = TuneAll | ModelPick | Measure(count: nat)

  /** The default of max_num_cand. */
  const DefaultMaxNumCand: int := 0

  /** Negative: tune every candidate; zero: measure none and take the
      performance model's pick; positive: measure that many. */
  function TuningOf(maxNumCand: int): (t: Tuning)
    ensures t.TuneAll? <==> maxNumCand < 0
    ensures t.ModelPick? <==> maxNumCand == 0
    ensures t.Measure? <==> maxNumCand > 0
    ensures t.Measure? ==> t.count == maxNumCand
  {
    if maxNumCand < 0 then TuneAll
    else if maxNumCand == 0 then ModelPick
    else Measure(maxNumCand)
  }
}
