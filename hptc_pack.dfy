/*
 * CGraphTransPackBase as the hptc generator writes it: one graph pointer
 * per generated order. The constructor resolves the size vectors, plans a
 * graph for the requested order only and leaves every other pointer null;
 * exec_base_ runs the first non-null pointer; the destructor deletes each
 * pointer once.
 *
 * The planner is not part of this model: it is the parameter `plan`,
 * applied to the resolved sizes. The data pointers, coefficients, thread
 * count and tuning arguments only reach the planner and are folded into it.
 */
module HptcPack {
  import opened TransTypes
  import opened TransApi
  import opened SizeResolve
  import opened Dispatch

  class CGraphTransPackBase {
    /** The generator's order list; MIN_ORDER is its first entry and
        MAX_ORDER its last. */
    const orders: seq<nat>
    /** slots[k] is cgraph_trans_ptr_<orders[k]>_; None is nullptr. */
    var slots: seq<Option<Graph>>

    ghost predicate Valid()
      reads this
    {
      |orders| > 0 && Distinct(orders) && |slots| == |orders|
    }

    /** The generated constructor for `order`. */
    constructor(orders: seq<nat>, order: nat, inSize: seq<nat>, perm: seq<nat>,
                inOuter: seq<nat>, outOuter: seq<nat>, plan: Sizes -> Option<Graph>)
      requires |orders| > 0 && Distinct(orders)
      requires PermReadable(order, inSize, perm)
      ensures Valid() && this.orders == orders
      ensures forall k :: 0 <= k < |orders| ==>
                slots[k] == if orders[k] == order then plan(AsWritten(order, inSize, perm, inOuter, outOuter)) else None
      // exec_base_ then runs the planned graph exactly when `order` was
      // generated, and the destructor frees it once and nothing else.
      ensures FirstSome(slots) == if order in orders then plan(AsWritten(order, inSize, perm, inOuter, outOuter)) else None
      ensures Present(slots) == if order in orders then AsSeq(plan(AsWritten(order, inSize, perm, inOuter, outOuter))) else []
    {
      this.orders := orders;
      var sizes := ResolveSizesAsWritten(order, inSize, perm, inOuter, outOuter);
      var built: seq<Option<Graph>> := [];
      for k := 0 to |orders|
        invariant |built| == k
        invariant forall j :: 0 <= j < k ==> built[j] == if orders[j] == order then plan(sizes) else None
      {
        if orders[k] == order {
          built := built + [plan(sizes)];
        } else {
          built := built + [None];
        }
      }
      slots := built;
      SingleSlot(orders, order, plan(sizes), built);
    }

    /** exec_base_: the generated if / else-if chain over the pointers. */
    method ExecBase() returns (executed: Option<Graph>)
      requires Valid()
      ensures executed == FirstSome(slots)
    {
      executed := RunChain(slots);
    }

    /** The destructor: `delete` on each pointer in order. */
    method Destroy() returns (freed: seq<Graph>)
      requires Valid()
      ensures freed == Present(slots)
    {
      freed := DeleteAll(slots);
    }
  }
}
