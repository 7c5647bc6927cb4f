/** `GET /api/orders/history`: a buyer's delivered orders. */
module OrderHistory {
  import opened Common
  import opened Seqs
  import opened Entities

  datatype HistoryError = BuyerIdRequired

  predicate DeliveredTo(o: Order, buyerId: Id)
  {
    o.buyerId == buyerId && o.status == DELIVERED
  }

  /** The handler, a read: without a buyer id it answers 400; otherwise
      exactly that buyer's delivered orders, each as often as in the table,
      newest first. */
  function DeliveredHistory(os: seq<Order>, buyerId: Option<Id>): (r: Response<seq<Order>, HistoryError>)
    ensures buyerId.None? <==> r == Err(400, BuyerIdRequired)
    ensures buyerId.Some? ==> r.Ok? && r.status == 200
    ensures buyerId.Some? ==> forall o :: o in r.value <==> o in os && DeliveredTo(o, buyerId.value)
    ensures buyerId.Some? ==> forall o :: o in os && DeliveredTo(o, buyerId.value) ==>
      multiset(r.value)[o] == multiset(os)[o]
    ensures buyerId.Some? ==> forall i, j :: 0 <= i < j < |r.value| ==> r.value[i].createdAt >= r.value[j].createdAt
  {
    match buyerId
    case None => Err(400, BuyerIdRequired)
    case Some(b) =>
      var delivered := Filter(os, (o: Order) => DeliveredTo(o, b));
      FilterCounts(os, (o: Order) => DeliveredTo(o, b));
      Ok(200, NewestOrdersFirst(delivered))
  }
}
