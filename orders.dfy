/**
 * The six order kinds of Orders.cpp and the OrdersList a player queues them
 * in. An order names its issuing player and its territories by index; what
 * validating and executing an order does to the game is in OrderRules.
 */
module Orders {
  import opened Wrappers
  import opened Board

  /**
   * An order as constructed. `hasDeck` is false for an Advance built with a
   * null deck pointer (the Cheater's advances).
   */
  datatype Order =
    | Deploy(player: PlayerId, target: nat, amount: int)
    | Advance(player: PlayerId, source: nat, target: nat, amount: int, hasDeck: bool)
    | Bomb(player: PlayerId, target: nat)
    | Blockade(player: PlayerId, target: nat)
    | Airlift(player: PlayerId, source: nat, target: nat, amount: int)
    | Negotiate(player: PlayerId, other: PlayerId)

  /**
   * OrdersList::remove(index): nothing for an index past the end; otherwise
   * the order at the index, and the others closed up in their order.
   */
  function RemoveAt(orders: seq<Order>, index: nat): (r: (Option<Order>, seq<Order>))
    ensures index >= |orders| ==> r == (None, orders)
    ensures index < |orders| ==> r.0 == Some(orders[index]) && |r.1| == |orders| - 1
    ensures index < |orders| ==> forall j :: 0 <= j < |r.1| ==> r.1[j] == (if j < index then orders[j] else orders[j + 1])
    ensures index < |orders| ==> multiset(r.1) + multiset{orders[index]} == multiset(orders)
  {
    if index >= |orders| then (None, orders)
    else
      assert orders == orders[..index] + [orders[index]] + orders[index + 1..];
      (Some(orders[index]), orders[..index] + orders[index + 1..])
  }

  /** OrdersList::move: the orders at two valid indices trade places. */
  function Swapped(orders: seq<Order>, i: nat, j: nat): (r: seq<Order>)
    requires i < |orders| && j < |orders|
    ensures |r| == |orders| && r[i] == orders[j] && r[j] == orders[i]
    ensures forall k :: 0 <= k < |orders| && k != i && k != j ==> r[k] == orders[k]
  {
    orders[i := orders[j]][j := orders[i]]
  }

  /** The list is first in, first out: what is added last comes out of remove(0) after the rest. */
  lemma {:induction false} QueueOrder(orders: seq<Order>, o: Order)
    ensures orders != [] ==> RemoveAt(orders + [o], 0) == (Some(orders[0]), orders[1..] + [o])
    ensures orders == [] ==> RemoveAt(orders + [o], 0) == (Some(o), [])
  {
    var s := orders + [o];
    var r := RemoveAt(s, 0);
    if orders != [] {
      assert r.1 == orders[1..] + [o];
    } else {
      assert r.1 == [];
    }
  }

  /** Moving twice between the same indices restores the list. */
  lemma SwapInvolution(orders: seq<Order>, i: nat, j: nat)
    requires i < |orders| && j < |orders|
    ensures Swapped(Swapped(orders, i, j), i, j) == orders
  {
    var r := Swapped(orders, i, j);
    assert forall k :: 0 <= k < |orders| ==> Swapped(r, i, j)[k] == orders[k];
  }

  /** A move keeps the same orders. */
  lemma SwapKeepsOrders(orders: seq<Order>, i: nat, j: nat)
    requires i < |orders| && j < |orders|
    ensures multiset(Swapped(orders, i, j)) == multiset(orders)
  {
    var once := orders[i := orders[j]];
    assert multiset(once) == multiset(orders) - multiset{orders[i]} + multiset{orders[j]};
    assert multiset(once[j := orders[i]]) == multiset(once) - multiset{once[j]} + multiset{orders[i]};
  }

  class OrdersList {
    var orders: seq<Order>

    constructor ()
      ensures orders == []
    {
      orders := [];
    }

    /** OrdersList::add: a null order (None) throws and leaves the list as it is; any other is appended. */
    method Add(order: Option<Order>) returns (r: Result<(), string>)
      modifies this
      ensures order.None? ==> r == Err("Order is null somehow") && orders == old(orders)
      ensures order.Some? ==> r.Ok? && orders == old(orders) + [order.value]
    {
      if order.None? {
        return Err("Order is null somehow");
      }
      orders := orders + [order.value];
      r := Ok(());
    }

    method Remove(index: nat) returns (order: Option<Order>)
      modifies this
      ensures (order, orders) == RemoveAt(old(orders), index)
    {
      if index >= |orders| {
        return None;
      }
      order := Some(orders[index]);
      orders := orders[..index] + orders[index + 1..];
    }

    /**
     * OrdersList::move. Its bounds test has an empty body, so indices out of
     * range would make std::swap read past the vector; they are excluded here.
     */
    method Move(fromIndex: nat, toIndex: nat)
      requires fromIndex < |orders| && toIndex < |orders|
      modifies this
      ensures orders == Swapped(old(orders), fromIndex, toIndex)
    {
      var a := orders[fromIndex];
      orders := orders[fromIndex := orders[toIndex]];
      orders := orders[toIndex := a];
    }

    /** OrdersList::operator=: the other list's orders replace these. */
    method Assign(other: OrdersList)
      modifies this
      ensures orders == other.orders
    {
      if other != this {
        orders := other.orders;
      }
    }
  }
}
