/*
 * The pointer-slot tables of the generated graph packs, and the
 * if / else-if chains the generators emit over them.
 *
 * A pack holds one graph pointer per generated order; a slot is
 * Some(graph) or None for nullptr. Every chain the generators write tests
 * the slots in the order of the generator's order list and acts on the
 * first non-null one.
 */
module Dispatch {
  import opened TransTypes
  import opened TransApi

  /** The first non-null slot. */
  function FirstSome(slots: seq<Option<Graph>>): (r: Option<Graph>)
    ensures r.None? <==> forall k :: 0 <= k < |slots| ==> slots[k].None?
    ensures r.Some? ==> exists k :: 0 <= k < |slots| && slots[k] == r && forall j :: 0 <= j < k ==> slots[j].None?
  {
    if |slots| == 0 then None
    else if slots[0].Some? then slots[0]
    else
      var r := FirstSome(slots[1..]);
      assert r.Some? ==> exists k :: 1 <= k < |slots| && slots[k] == r && forall j :: 0 <= j < k ==> slots[j].None? by {
        if r.Some? {
          var k :| 0 <= k < |slots[1..]| && slots[1..][k] == r && forall j :: 0 <= j < k ==> slots[1..][j].None?;
          assert forall j :: 1 <= j < k + 1 ==> slots[j] == slots[1..][j - 1];
        }
      }
      r
  }

  function AsSeq(g: Option<Graph>): seq<Graph>
  {
    if g.Some? then [g.value] else []
  }

  /** The non-null slots' graphs, in slot order. */
  function Present(slots: seq<Option<Graph>>): seq<Graph>
  {
    if |slots| == 0 then [] else AsSeq(slots[0]) + Present(slots[1..])
  }

  /** One statement `if (p0) ... else if (p1) ... else if (pn) ...` over the
      slots: it runs the first non-null slot's graph, or nothing. */
  method RunChain(slots: seq<Option<Graph>>) returns (executed: Option<Graph>)
    ensures executed == FirstSome(slots)
  {
    executed := None;
    var k := 0;
    while k < |slots| && executed.None?
      invariant 0 <= k <= |slots|
      invariant FirstSome(slots) == if executed.Some? then executed else FirstSome(slots[k..])
    {
      assert slots[k..][1..] == slots[k + 1..];
      if slots[k].Some? {
        executed := slots[k];
      }
      k := k + 1;
    }
  }

  /** `delete` on every slot in turn; deleting nullptr does nothing. */
  method DeleteAll(slots: seq<Option<Graph>>) returns (freed: seq<Graph>)
    ensures freed == Present(slots)
  {
    freed := [];
    for k := 0 to |slots|
      invariant freed + Present(slots[k..]) == Present(slots)
    {
      assert slots[k..][1..] == slots[k + 1..];
      assert Present(slots[k..]) == AsSeq(slots[k]) + Present(slots[k + 1..]);
      if slots[k].Some? {
        freed := freed + [slots[k].value];
      }
    }
    assert slots[|slots|..] == [];
  }

  /** A slot table as the constructors leave it: the slot of `order`
      holds `g`, every other slot is null. With distinct orders the chain
      runs `g` exactly when `order` was generated, and deleting the table
      frees `g` once and nothing else. */
  lemma {:induction false} SingleSlot(orders: seq<nat>, order: nat, g: Option<Graph>, slots: seq<Option<Graph>>)
    requires Distinct(orders) && |slots| == |orders|
    requires forall k :: 0 <= k < |orders| ==> slots[k] == if orders[k] == order then g else None
    ensures FirstSome(slots) == if order in orders then g else None
    ensures Present(slots) == if order in orders then AsSeq(g) else []
  {
    if |orders| > 0 {
      SingleSlot(orders[1..], order, g, slots[1..]);
      assert orders == [orders[0]] + orders[1..];
      if orders[0] == order {
        assert order !in orders[1..];
        NoSlotSet(slots[1..]);
      }
    }
  }

  /** [t0, f0, t1, f1, ...]: the order in which a pair of slot tables is
      tested and deleted. */
  function Interleave<T>(t: seq<T>, f: seq<T>): (r: seq<T>)
    requires |t| == |f|
    ensures |r| == 2 * |t|
  {
    if |t| == 0 then [] else [t[0], f[0]] + Interleave(t[1..], f[1..])
  }

  lemma {:induction false} NoSlotSet(slots: seq<Option<Graph>>)
    requires forall k :: 0 <= k < |slots| ==> slots[k].None?
    ensures FirstSome(slots) == None && Present(slots) == []
  {
    if |slots| > 0 {
      NoSlotSet(slots[1..]);
    }
  }

  /** The chain and the deletions over a table that starts with slots a, b. */
  lemma PairUnfold(a: Option<Graph>, b: Option<Graph>, rest: seq<Option<Graph>>)
    ensures FirstSome([a, b] + rest) == if a.Some? then a else if b.Some? then b else FirstSome(rest)
    ensures Present([a, b] + rest) == AsSeq(a) + AsSeq(b) + Present(rest)
  {
    var i := [a, b] + rest;
    assert i[1..] == [b] + rest;
    assert i[1..][1..] == rest;
  }

  /** When one table of a pair is all null, the pair's first non-null slot
      is the other table's, and deleting the pair frees exactly the other
      table's graphs. */
  lemma {:induction false} InterleaveNullRight(t: seq<Option<Graph>>, f: seq<Option<Graph>>)
    requires |t| == |f|
    requires forall k :: 0 <= k < |f| ==> f[k].None?
    ensures FirstSome(Interleave(t, f)) == FirstSome(t)
    ensures Present(Interleave(t, f)) == Present(t)
  {
    if |t| > 0 {
      InterleaveNullRight(t[1..], f[1..]);
      PairUnfold(t[0], f[0], Interleave(t[1..], f[1..]));
    }
  }

  lemma {:induction false} InterleaveNullLeft(t: seq<Option<Graph>>, f: seq<Option<Graph>>)
    requires |t| == |f|
    requires forall k :: 0 <= k < |t| ==> t[k].None?
    ensures FirstSome(Interleave(t, f)) == FirstSome(f)
    ensures Present(Interleave(t, f)) == Present(f)
  {
    if |t| > 0 {
      InterleaveNullLeft(t[1..], f[1..]);
      PairUnfold(t[0], f[0], Interleave(t[1..], f[1..]));
    }
  }

  /** One step of the chain over a pair of tables: the pair at index k is
      tested _t_ first, then _f_, and only then the rest. */
  lemma InterleaveStep(t: seq<Option<Graph>>, f: seq<Option<Graph>>, k: nat)
    requires |t| == |f| && k < |t|
    ensures FirstSome(Interleave(t[k..], f[k..])) ==
              if t[k].Some? then t[k] else if f[k].Some? then f[k] else FirstSome(Interleave(t[k + 1..], f[k + 1..]))
  {
    assert t[k..][1..] == t[k + 1..] && f[k..][1..] == f[k + 1..];
    PairUnfold(t[k], f[k], Interleave(t[k + 1..], f[k + 1..]));
  }

  /** How a generated branch opens. */
  datatype Keyword = If | ElseIf

  /** The generators' loop over the order list: the branch of an order
      opens with `if` when it is orders[0] and with `else if` otherwise. */
  method GenChain(orders: seq<nat>) returns (kws: seq<Keyword>)
    requires |orders| > 0
    ensures |kws| == |orders|
    ensures forall k :: 0 <= k < |orders| ==> (kws[k] == If <==> orders[k] == orders[0])
    ensures Distinct(orders) ==> kws[0] == If && forall k :: 0 < k < |orders| ==> kws[k] == ElseIf
  {
    kws := [];
    for k := 0 to |orders|
      invariant |kws| == k
      invariant forall j :: 0 <= j < k ==> (kws[j] == If <==> orders[j] == orders[0])
    {
      kws := kws + [if orders[k] == orders[0] then If else ElseIf];
    }
  }

  /** n branches that each open with `else if`. */
  function ElseIfs(n: nat): (r: seq<Keyword>)
    ensures |r| == n && forall k :: 0 <= k < n ==> r[k] == ElseIf
  {
    seq(n, _ => ElseIf)
  }

  /** What a run of generated branches does: a branch runs its slot's graph
      when the slot is non-null and no earlier branch of the same `if`
      statement was taken; an `If` starts a new statement. */
  function ChainRuns(kws: seq<Keyword>, slots: seq<Option<Graph>>, taken: bool): seq<Graph>
    requires |kws| == |slots|
  {
    if |kws| == 0 then []
    else
      var t := kws[0] == ElseIf && taken;
      if !t && slots[0].Some? then [slots[0].value] + ChainRuns(kws[1..], slots[1..], true)
      else ChainRuns(kws[1..], slots[1..], t)
  }

  lemma {:induction false} ElseIfRuns(kws: seq<Keyword>, slots: seq<Option<Graph>>, taken: bool)
    requires |kws| == |slots|
    requires forall k :: 0 <= k < |kws| ==> kws[k] == ElseIf
    ensures ChainRuns(kws, slots, taken) == if taken then [] else AsSeq(FirstSome(slots))
  {
    if |kws| > 0 {
      ElseIfRuns(kws[1..], slots[1..], true);
      ElseIfRuns(kws[1..], slots[1..], taken);
    }
  }

  /** A chain opened by `if` and continued by `else if` alone runs the
      first non-null slot's graph and nothing else. */
  lemma ChainRunsFirst(kws: seq<Keyword>, slots: seq<Option<Graph>>)
    requires |kws| == |slots| > 0
    requires kws[0] == If && forall k :: 0 < k < |kws| ==> kws[k] == ElseIf
    ensures ChainRuns(kws, slots, false) == AsSeq(FirstSome(slots))
  {
    ElseIfRuns(kws[1..], slots[1..], true);
    ElseIfRuns(kws[1..], slots[1..], false);
  }
}
