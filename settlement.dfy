/** The payment-settlement pass (`confirmPendingPayments`): every order still awaiting a Bit payment
    is confirmed or left pending by an independent decision, given here as the set of order ids
    the pass confirms. */
module Settlement {
  import opened Tables

  /** `status = 'Pending Payment' AND paymentMethod = 'Bit'`. */
  predicate AwaitingBit(o: Order) {
    o.status == PendingPayment && o.paymentMethod == Bit
  }

  /** The orders table after a pass that confirms the awaiting orders in `confirm`. */
  function Settled(orders: map<Id, Order>, confirm: set<Id>): (r: map<Id, Order>)
    ensures r.Keys == orders.Keys
    ensures forall id :: id in orders ==>
      r[id] == if AwaitingBit(orders[id]) && id in confirm then orders[id].(status := Completed) else orders[id]
  {
    map id | id in orders :: if AwaitingBit(orders[id]) && id in confirm then orders[id].(status := Completed) else orders[id]
  }

  /** The only change a pass makes is `Pending Payment` to `Completed` on a Bit order: card orders and
      completed orders are untouched, so a completed order never reverts. */
  lemma OnlyPendingBitOrdersComplete(orders: map<Id, Order>, confirm: set<Id>)
    ensures forall id :: id in orders && Settled(orders, confirm)[id] != orders[id] ==>
      && orders[id].status == PendingPayment && orders[id].paymentMethod == Bit
      && Settled(orders, confirm)[id] == orders[id].(status := Completed)
    ensures forall id :: id in orders && orders[id].status == Completed ==> Settled(orders, confirm)[id].status == Completed
    ensures forall id :: id in orders && orders[id].paymentMethod == Card ==> Settled(orders, confirm)[id] == orders[id]
  {
  }

  /** Passes compose: a second pass over the result confirms what is still pending, and repeating the
      same decisions changes nothing more. */
  lemma PassesCompose(orders: map<Id, Order>, first: set<Id>, second: set<Id>)
    ensures Settled(Settled(orders, first), second) == Settled(orders, first + second)
    ensures Settled(Settled(orders, first), first) == Settled(orders, first)
  {
  }

  /** A pass changes statuses only, so it keeps every order under its own id. */
  lemma SettledKeepsOrdersWellFormed(orders: map<Id, Order>, confirm: set<Id>)
    requires OrdersWellFormed(orders)
    ensures OrdersWellFormed(Settled(orders, confirm))
  {
  }

  /** Confirming one more awaiting order changes exactly that order's row. */
  lemma ConfirmOneMore(orders: map<Id, Order>, confirm: set<Id>, id: Id)
    requires id in orders && AwaitingBit(orders[id]) && id !in confirm
    ensures Settled(orders, confirm + {id}) == Settled(orders, confirm)[id := orders[id].(status := Completed)]
  {
  }
}
