/** The client's requests: how they are built and how they get their ids. */
module AlgoClientModule {
  import opened Types

  const FIRST_ID: nat := 1000001

  /** A request with its ids filled in; a new order is known by the id of the request that places it. */
  function Stamp(r: OrderRequest, id: nat, clientId: nat, now: nat): OrderRequest {
    var s := r.(clientId := clientId, execId := id, timestamp := now);
    if r.action == NewOrder then s.(orderId := id) else s
  }

  function NewRequest(symbolId: nat, side: Side, orderType: OrderType, p: int, q: nat, visibleQty: nat): OrderRequest {
    OrderRequest(NewOrder, 0, 0, 0, symbolId, side, orderType, p, q, if visibleQty == 0 then q else visibleQty, 0)
  }

  function ModifyRequest(orderId: nat, p: int, q: nat, symbolId: nat, side: Side): OrderRequest {
    OrderRequest(ModifyOrder, 0, orderId, 0, symbolId, side, Limit, p, q, 0, 0)
  }

  function CancelRequest(orderId: nat, symbolId: nat, side: Side): OrderRequest {
    OrderRequest(CancelOrder, 0, orderId, 0, symbolId, side, Limit, 0, 0, 0, 0)
  }

  /** `t` is the request `r`, sent with the given id. */
  predicate SentAs(r: OrderRequest, t: OrderRequest, id: nat) {
    t == Stamp(r, id, t.clientId, t.timestamp)
  }

  /** Requests sent one after the other take consecutive ids. */
  predicate AllSentAs(rs: seq<OrderRequest>, ts: seq<OrderRequest>, firstId: nat) {
    |rs| == |ts| && forall i :: 0 <= i < |rs| ==> SentAs(rs[i], ts[i], firstId + i)
  }

  /** What is sent is the request in every field but the ids and the time it gets. */
  predicate KeepsContent(r: OrderRequest, t: OrderRequest) {
    && t.action == r.action && t.symbolId == r.symbolId && t.side == r.side && t.orderType == r.orderType
    && t.p == r.p && t.q == r.q && t.visibleQty == r.visibleQty
  }

  /** A sent request has the content that was asked for; a new order gets the id as its own, others keep theirs. */
  lemma SentContent(r: OrderRequest, t: OrderRequest, id: nat)
    ensures SentAs(r, t, id) <==>
            KeepsContent(r, t) && t.execId == id && t.orderId == if r.action == NewOrder then id else r.orderId
  {
  }

  lemma NothingSent(firstId: nat)
    ensures AllSentAs([], [], firstId)
  {
  }

  lemma SentInTwoParts(rs: seq<OrderRequest>, ts: seq<OrderRequest>,
                       rs': seq<OrderRequest>, ts': seq<OrderRequest>, firstId: nat)
    requires AllSentAs(rs, ts, firstId) && AllSentAs(rs', ts', firstId + |ts|)
    ensures AllSentAs(rs + rs', ts + ts', firstId)
  {
  }

  lemma SentInThreeParts(rs: seq<OrderRequest>, ts: seq<OrderRequest>, rs': seq<OrderRequest>,
                         ts': seq<OrderRequest>, rs'': seq<OrderRequest>, ts'': seq<OrderRequest>, firstId: nat)
    requires AllSentAs(rs, ts, firstId) && AllSentAs(rs', ts', firstId + |ts|)
    requires AllSentAs(rs'', ts'', firstId + |ts| + |ts'|)
    ensures AllSentAs(rs + rs' + rs'', ts + ts' + ts'', firstId)
  {
    hide AllSentAs;
    SentInTwoParts(rs, ts, rs', ts', firstId);
    SentInTwoParts(rs + rs', ts + ts', rs'', ts'', firstId);
  }

  /** Execution ids rise strictly and stay below the next one; a new order is known by its execution id. */
  predicate IdsRise(ts: seq<OrderRequest>, nextId: nat) {
    && (forall i, j :: 0 <= i < j < |ts| ==> ts[i].execId < ts[j].execId)
    && (forall i :: 0 <= i < |ts| ==>
          ts[i].execId < nextId && (ts[i].action == NewOrder ==> ts[i].orderId == ts[i].execId))
  }

  /** Every request carries the client's own number. */
  predicate AllFrom(ts: seq<OrderRequest>, clientId: nat) {
    forall i :: 0 <= i < |ts| ==> ts[i].clientId == clientId
  }

  class AlgoTradingClient {
    const clientId: nat
    var nextId: nat
    /** Everything handed to the connection, in order. */
    var sent: seq<OrderRequest>

    /** Everything ever sent carries an id of its own, and this client's number. */
    ghost predicate Valid()
      reads this
    {
      IdsRise(sent, nextId) && AllFrom(sent, clientId)
    }

    constructor (clientId: nat)
      ensures Valid()
      ensures nextId == 1000001 && sent == [] && this.clientId == clientId
    {
      this.clientId := clientId;
      nextId, sent := FIRST_ID, [];
    }

    /** `now` is the clock reading put into the request, which is returned as it was sent. */
    method SendOrderRequest(order: OrderRequest, now: nat) returns (stamped: OrderRequest)
      requires Valid()
      modifies this
      ensures Valid()
      ensures nextId == old(nextId) + 1
      ensures stamped == Stamp(order, old(nextId), clientId, now)
      ensures KeepsContent(order, stamped) && stamped.clientId == clientId && stamped.timestamp == now
      ensures stamped.execId == old(nextId)
      ensures stamped.orderId == if order.action == NewOrder then old(nextId) else order.orderId
      ensures sent == old(sent) + [stamped]
    {
      stamped := order.(clientId := clientId);
      if stamped.action == NewOrder {
        stamped := stamped.(orderId := nextId);
        nextId := nextId + 1;
        stamped := stamped.(execId := stamped.orderId);
      } else {
        stamped := stamped.(execId := nextId);
        nextId := nextId + 1;
      }
      stamped := stamped.(timestamp := now);
      sent := sent + [stamped];
    }

    method PlaceOrder(symbolId: nat, side: Side, orderType: OrderType, p: int, q: nat, visibleQty: nat, now: nat)
      requires Valid()
      modifies this
      ensures Valid()
      ensures nextId == old(nextId) + 1
      ensures sent == old(sent)
                      + [Stamp(NewRequest(symbolId, side, orderType, p, q, visibleQty), old(nextId), clientId, now)]
      ensures sent == old(sent)
                      + [OrderRequest(NewOrder, old(nextId), old(nextId), clientId, symbolId, side, orderType, p, q,
                                      if visibleQty == 0 then q else visibleQty, now)]
    {
      var request := OrderRequest(NewOrder, 0, 0, 0, symbolId, side, orderType, p, q,
                                  if visibleQty == 0 then q else visibleQty, 0);
      var _ := SendOrderRequest(request, now);
    }

    method NewLimitOrder(symbolId: nat, side: Side, p: int, q: nat, now: nat)
      requires Valid()
      modifies this
      ensures Valid()
      ensures nextId == old(nextId) + 1
      ensures sent == old(sent) + [Stamp(NewRequest(symbolId, side, Limit, p, q, 0), old(nextId), clientId, now)]
      ensures sent == old(sent)
                      + [OrderRequest(NewOrder, old(nextId), old(nextId), clientId, symbolId, side, Limit, p, q, q,
                                      now)]
    {
      PlaceOrder(symbolId, side, Limit, p, q, 0, now);
    }

    method NewMarketOrder(symbolId: nat, side: Side, q: nat, now: nat)
      requires Valid()
      modifies this
      ensures Valid()
      ensures nextId == old(nextId) + 1
      ensures sent == old(sent) + [Stamp(NewRequest(symbolId, side, Market, 0, q, q), old(nextId), clientId, now)]
      ensures sent == old(sent)
                      + [OrderRequest(NewOrder, old(nextId), old(nextId), clientId, symbolId, side, Market, 0, q, q,
                                      now)]
    {
      PlaceOrder(symbolId, side, Market, 0, q, q, now);
    }

    method ReplaceOrder(orderId: nat, p: int, q: nat, symbolId: nat, side: Side, now: nat)
      requires Valid()
      modifies this
      ensures Valid()
      ensures nextId == old(nextId) + 1
      ensures sent == old(sent) + [Stamp(ModifyRequest(orderId, p, q, symbolId, side), old(nextId), clientId, now)]
      ensures sent == old(sent)
                      + [OrderRequest(ModifyOrder, old(nextId), orderId, clientId, symbolId, side, Limit, p, q, 0, now)]
    {
      var _ := SendOrderRequest(ModifyRequest(orderId, p, q, symbolId, side), now);
    }

    method CancelOrder(orderId: nat, symbolId: nat, side: Side, now: nat)
      requires Valid()
      modifies this
      ensures Valid()
      ensures nextId == old(nextId) + 1
      ensures sent == old(sent) + [Stamp(CancelRequest(orderId, symbolId, side), old(nextId), clientId, now)]
      ensures sent == old(sent)
                      + [OrderRequest(OrderAction.CancelOrder, old(nextId), orderId, clientId, symbolId, side,
                                      Limit, 0, 0, 0, now)]
    {
      var _ := SendOrderRequest(CancelRequest(orderId, symbolId, side), now);
    }
  }

  /** No two requests a client ever sent share an execution id, and no two new orders an order id. */
  lemma SentIdsAreUnique(client: AlgoTradingClient, i: nat, j: nat)
    requires client.Valid() && i < j < |client.sent|
    ensures client.sent[i].execId != client.sent[j].execId
    ensures client.sent[i].action == NewOrder && client.sent[j].action == NewOrder ==>
              client.sent[i].orderId != client.sent[j].orderId
    ensures client.sent[i].clientId == client.sent[j].clientId == client.clientId
  {
  }
}
