/*
 * CGraphTransPack as the hptt generator writes it. Every generated order
 * has two graph pointers, _t_ for a graph that updates the output
 * (beta is used) and _f_ for one that overwrites it. All start null; the
 * constructor plans the requested order's graph into its _t_ pointer when
 * update_ holds and into its _f_ pointer otherwise. exec_impl_ runs the
 * first non-null pointer of the table update_ selects; reset_data,
 * set_thread_ids and unset_thread_ids go to the first non-null pointer,
 * testing each order's _t_ pointer before its _f_ pointer.
 *
 * The planner is the parameter `plan`, given the update flag and the
 * resolved sizes. update_ is hptt::update_output(beta), which is not part
 * of this model: it is the constructor parameter `update`.
 */
module HpttPack {
  import opened TransTypes
  import opened TransApi
  import opened SizeResolve
  import opened Dispatch

  /** A raw data pointer, by address. */
  type Ptr = nat

  /** A call the pack passes on to one of its graphs. */
  datatype Call = ResetData(inData: Ptr, outData: Ptr) | SetThreadIds(threadIds: seq<int>) | UnsetThreadIds

  /** `call` delivered to `graph`. */
  datatype Delivery = Delivery(graph: Graph, call: Call)

  /** The delivery of `c` to `target`, or none when no graph is set. */
  function Deliver(target: Option<Graph>, c: Call): (d: Option<Delivery>)
    ensures d.None? <==> target.None?
    ensures d.Some? ==> d.value.graph == target.value && d.value.call == c
  {
    if target.Some? then Some(Delivery(target.value, c)) else None
  }

  class CGraphTransPack {
    /** The generator's order list. */
    const orders: seq<nat>
    /** update_: whether the planned graph updates the output. */
    const update: bool
    /** slotsT[k] is cgraph_trans_ptr_<orders[k]>_t_, slotsF[k] is
        cgraph_trans_ptr_<orders[k]>_f_; None is nullptr. */
    var slotsT: seq<Option<Graph>>
    var slotsF: seq<Option<Graph>>

    ghost predicate Valid()
      reads this
    {
      |orders| > 0 && Distinct(orders) && |slotsT| == |orders| && |slotsF| == |orders|
    }

    /** The generated constructor for `order`: CGraphTransPackData() sets
        every pointer to nullptr, then the requested order's pointer of
        the kind update_ selects gets the planned graph. */
    constructor(orders: seq<nat>, order: nat, update: bool, inSize: seq<nat>, perm: seq<nat>,
                inOuter: seq<nat>, outOuter: seq<nat>, plan: (bool, Sizes) -> Option<Graph>)
      requires |orders| > 0 && Distinct(orders)
      requires PermReadable(order, inSize, perm)
      ensures Valid() && this.orders == orders && this.update == update
      ensures forall k :: 0 <= k < |orders| ==>
                slotsT[k] == if update && orders[k] == order
                             then plan(true, AsWritten(order, inSize, perm, inOuter, outOuter)) else None
      ensures forall k :: 0 <= k < |orders| ==>
                slotsF[k] == if !update && orders[k] == order
                             then plan(false, AsWritten(order, inSize, perm, inOuter, outOuter)) else None
      // exec_impl_ and the forwarding calls then reach the same graph, the
      // one planned for `order` when `order` was generated, and the
      // destructor frees it once and nothing else.
      ensures FirstSome(Interleave(slotsT, slotsF)) == (if update then FirstSome(slotsT) else FirstSome(slotsF))
      ensures FirstSome(Interleave(slotsT, slotsF)) ==
                if order in orders then plan(update, AsWritten(order, inSize, perm, inOuter, outOuter)) else None
      ensures Present(Interleave(slotsT, slotsF)) ==
                if order in orders then AsSeq(plan(update, AsWritten(order, inSize, perm, inOuter, outOuter))) else []
    {
      this.orders := orders;
      this.update := update;
      var t: seq<Option<Graph>> := seq(|orders|, _ => None);
      var f: seq<Option<Graph>> := seq(|orders|, _ => None);
      var sizes := ResolveSizesAsWritten(order, inSize, perm, inOuter, outOuter);
      for k := 0 to |orders|
        invariant |t| == |orders| && |f| == |orders|
        invariant forall j :: 0 <= j < |orders| ==>
                    t[j] == if j < k && update && orders[j] == order then plan(true, sizes) else None
        invariant forall j :: 0 <= j < |orders| ==>
                    f[j] == if j < k && !update && orders[j] == order then plan(false, sizes) else None
      {
        if orders[k] == order {
          if update {
            t := t[k := plan(true, sizes)];
          } else {
            f := f[k := plan(false, sizes)];
          }
        }
      }
      slotsT := t;
      slotsF := f;
      if update {
        SingleSlot(orders, order, plan(true, sizes), t);
        InterleaveNullRight(t, f);
      } else {
        SingleSlot(orders, order, plan(false, sizes), f);
        InterleaveNullLeft(t, f);
      }
    }

    /** exec_impl_: the _t_ chain when update_ holds, the _f_ chain
        otherwise. */
    method ExecImpl() returns (executed: Option<Graph>)
      requires Valid()
      ensures executed == if update then FirstSome(slotsT) else FirstSome(slotsF)
    {
      if update {
        executed := RunChain(slotsT);
      } else {
        executed := RunChain(slotsF);
      }
    }

    /** exec() and operator()(): both run exec_impl_. */
    method Exec() returns (executed: Option<Graph>)
      requires Valid()
      ensures executed == if update then FirstSome(slotsT) else FirstSome(slotsF)
    {
      executed := ExecImpl();
    }

    /** The forwarding chain: for each order in turn, the _t_ pointer and
        then the _f_ pointer; the first non-null one is the target. */
    method ForwardTarget() returns (target: Option<Graph>)
      requires Valid()
      ensures target == FirstSome(Interleave(slotsT, slotsF))
    {
      target := None;
      var k := 0;
      while k < |slotsT| && target.None?
        invariant 0 <= k <= |slotsT|
        invariant FirstSome(Interleave(slotsT, slotsF)) ==
                    if target.Some? then target else FirstSome(Interleave(slotsT[k..], slotsF[k..]))
      {
        InterleaveStep(slotsT, slotsF, k);
        if slotsT[k].Some? {
          target := slotsT[k];
        } else if slotsF[k].Some? {
          target := slotsF[k];
        }
        k := k + 1;
      }
    }

    /** reset_data(in_data, out_data), passed on to the forwarding target. */
    method ResetDataOf(inData: Ptr, outData: Ptr) returns (d: Option<Delivery>)
      requires Valid()
      ensures d == Deliver(FirstSome(Interleave(slotsT, slotsF)), ResetData(inData, outData))
    {
      var target := ForwardTarget();
      d := Deliver(target, ResetData(inData, outData));
    }

    /** set_thread_ids(thread_ids), passed on to the forwarding target. */
    method SetThreadIdsOf(threadIds: seq<int>) returns (d: Option<Delivery>)
      requires Valid()
      ensures d == Deliver(FirstSome(Interleave(slotsT, slotsF)), SetThreadIds(threadIds))
    {
      var target := ForwardTarget();
      d := Deliver(target, SetThreadIds(threadIds));
    }

    /** unset_thread_ids(), passed on to the forwarding target. */
    method UnsetThreadIdsOf() returns (d: Option<Delivery>)
      requires Valid()
      ensures d == Deliver(FirstSome(Interleave(slotsT, slotsF)), UnsetThreadIds)
    {
      var target := ForwardTarget();
      d := Deliver(target, UnsetThreadIds);
    }

    /** ~CGraphTransPackData: for each order, `delete` on the _t_ pointer
        and then on the _f_ pointer. */
    method Destroy() returns (freed: seq<Graph>)
      requires Valid()
      ensures freed == Present(Interleave(slotsT, slotsF))
    {
      freed := DeleteAll(Interleave(slotsT, slotsF));
    }
  }

  /** Interleaving an `if` / `else if` keyword list with `else if`s keeps
      the shape: `if` first, `else if` everywhere after. */
  lemma {:induction false} InterleaveElseIf(kws: seq<Keyword>, e: seq<Keyword>)
    requires |kws| == |e|
    requires forall k :: 0 <= k < |kws| ==> kws[k] == ElseIf
    requires forall k :: 0 <= k < |e| ==> e[k] == ElseIf
    ensures forall k :: 0 <= k < 2 * |kws| ==> Interleave(kws, e)[k] == ElseIf
  {
    if |kws| > 0 {
      InterleaveElseIf(kws[1..], e[1..]);
    }
  }

  /** The generated forwarding chains (reset_data, set_thread_ids,
      unset_thread_ids) open each order's pair of branches with the
      keyword the generator chose for that order, and test _f_ with a
      fixed `else if`. On distinct orders the chain delivers the call to
      the first non-null pointer of the pair table, and to nothing else. */
  lemma ForwardChainRunsFirst(orders: seq<nat>, kws: seq<Keyword>, t: seq<Option<Graph>>, f: seq<Option<Graph>>)
    requires |orders| > 0 && Distinct(orders)
    requires |kws| == |orders| && |t| == |orders| && |f| == |orders|
    requires forall k :: 0 <= k < |orders| ==> (kws[k] == If <==> orders[k] == orders[0])
    ensures ChainRuns(Interleave(kws, ElseIfs(|orders|)), Interleave(t, f), false)
            == AsSeq(FirstSome(Interleave(t, f)))
  {
    var e := ElseIfs(|orders|);
    forall k | 0 < k < |orders|
      ensures kws[k] == ElseIf
    {
      assert orders[k] != orders[0];
    }
    InterleaveElseIf(kws[1..], e[1..]);
    var ks := Interleave(kws, e);
    assert ks == [kws[0], e[0]] + Interleave(kws[1..], e[1..]);
    ChainRunsFirst(ks, Interleave(t, f));
  }

  /** The number a string of decimal digits denotes, most significant
      digit first. */
  function DigitsValue(s: string): nat
  {
    if |s| == 0 then 0
    else DigitsValue(s[..|s| - 1]) * 10 + (if '0' <= s[|s| - 1] <= '9' then s[|s| - 1] as nat - 48 else 0)
  }

  /** n in decimal, as Python's `%d` writes it. */
  function Decimal(n: nat): (s: string)
    ensures |s| > 0 && forall i :: 0 <= i < |s| ==> '0' <= s[i] <= '9'
  {
    (if n < 10 then "" else Decimal(n / 10)) + [(48 + n % 10) as char]
  }

  /** The digits `%d` writes denote n and have no leading zero. */
  lemma {:induction false} DecimalDenotes(n: nat)
    ensures DigitsValue(Decimal(n)) == n
    ensures |Decimal(n)| > 1 ==> Decimal(n)[0] != '0'
  {
    var prefix := if n < 10 then "" else Decimal(n / 10);
    var last := (48 + n % 10) as char;
    var s := Decimal(n);
    assert s == prefix + [last];
    assert s[..|s| - 1] == prefix && s[|s| - 1] == last;
    assert last as nat - 48 == n % 10;
    assert DigitsValue(s) == DigitsValue(prefix) * 10 + n % 10;
    if n >= 10 {
      DecimalDenotes(n / 10);
      assert s[0] == prefix[0];
      if n / 10 < 10 {
        assert prefix == [(48 + n / 10) as char];
      }
    }
  }

  /** Distinct orders give distinct pointer names. */
  lemma DecimalInjective(m: nat, n: nat)
    requires Decimal(m) == Decimal(n)
    ensures m == n
  {
    DecimalDenotes(m);
    DecimalDenotes(n);
  }

  const EntryIndent: string := "\n      cgraph_trans_ptr_"

  /** One order's text in the CGraphTransPackData initialiser list. */
  function InitEntry(order: nat): string
  {
    EntryIndent + Decimal(order) + "_t_(nullptr)" + "," + EntryIndent + Decimal(order) + "_f_(nullptr)" + ","
  }

  /** The list before its last character is cut: every order's entry, in
      order. */
  function InitList(orders: seq<nat>): string
  {
    if |orders| == 0 then "" else InitList(orders[..|orders| - 1]) + InitEntry(orders[|orders| - 1])
  }

  /** Occurrences of `c` in `s`. */
  function Count(c: char, s: string): nat
  {
    if |s| == 0 then 0 else (if s[0] == c then 1 else 0) + Count(c, s[1..])
  }

  lemma {:induction false} CountConcat(c: char, a: string, b: string)
    ensures Count(c, a + b) == Count(c, a) + Count(c, b)
  {
    if |a| > 0 {
      assert (a + b)[1..] == a[1..] + b;
      CountConcat(c, a[1..], b);
    } else {
      assert a + b == b;
    }
  }

  lemma {:induction false} CountAbsent(c: char, s: string)
    requires c !in s
    ensures Count(c, s) == 0
  {
    if |s| > 0 {
      CountAbsent(c, s[1..]);
    }
  }

  /** An entry holds two commas and ends in "),". */
  lemma EntryShape(order: nat)
    ensures Count(',', InitEntry(order)) == 2
    ensures |InitEntry(order)| >= 2
    ensures InitEntry(order)[|InitEntry(order)| - 2..] == "),"
  {
    var d := Decimal(order);
    var half := HalfEntry(d, "_t_(nullptr)");
    var half' := HalfEntry(d, "_f_(nullptr)");
    assert InitEntry(order) == half + half';
    assert ',' !in d;
    HalfEntryCommas(d, "_t_(nullptr)");
    HalfEntryCommas(d, "_f_(nullptr)");
    CountConcat(',', half, half');
    assert (half + half')[|half + half'| - 2..] == half'[|half'| - 2..];
  }

  /** One pointer's part of an entry: indent, name, initialiser, comma. */
  function HalfEntry(d: string, init: string): string
  {
    EntryIndent + d + init + ","
  }

  lemma HalfEntryCommas(d: string, init: string)
    requires ',' !in d && ',' !in init
    ensures Count(',', HalfEntry(d, init)) == 1
  {
    assert ',' !in EntryIndent;
    var name := EntryIndent + d;
    CountAbsent(',', EntryIndent);
    CountAbsent(',', d);
    CountConcat(',', EntryIndent, d);
    CountAbsent(',', init);
    CountConcat(',', name, init);
    CountConcat(',', name + init, ",");
  }

  /** The list holds two commas per order, and ends in ")," when any order
      was generated. */
  lemma {:induction false} InitListShape(orders: seq<nat>)
    ensures Count(',', InitList(orders)) == 2 * |orders|
    ensures |orders| > 0 ==> |InitList(orders)| >= 2 && InitList(orders)[|InitList(orders)| - 2..] == "),"
  {
    if |orders| > 0 {
      var n := |orders| - 1;
      InitListShape(orders[..n]);
      EntryShape(orders[n]);
      CountConcat(',', InitList(orders[..n]), InitEntry(orders[n]));
      var e := InitEntry(orders[n]);
      assert InitList(orders)[|InitList(orders)| - 2..] == e[|e| - 2..];
    }
  }

  /** The generator's loop for the CGraphTransPackData initialiser list,
      then `[:-1]`: the trailing comma goes, so the 2n entries are
      separated by 2n - 1 commas and the list ends in a closing
      parenthesis. */
  method GenDataInit(orders: seq<nat>) returns (text: string)
    ensures |orders| > 0 ==> text + "," == InitList(orders)
    ensures |orders| > 0 ==> Count(',', text) == 2 * |orders| - 1 && text[|text| - 1] == ')'
    ensures |orders| == 0 ==> text == ""
  {
    var content := "";
    for k := 0 to |orders|
      invariant content == InitList(orders[..k])
    {
      assert orders[..k + 1][..k] == orders[..k];
      content := content + InitEntry(orders[k]);
    }
    assert orders[..|orders|] == orders;
    text := content[..if |content| > 0 then |content| - 1 else 0];
    if |orders| > 0 {
      InitListShape(orders);
      assert content == text + [content[|content| - 1]];
      assert content[|content| - 2..] == "),";
      CountConcat(',', text, ",");
    }
  }
}
