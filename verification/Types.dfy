/** The vocabulary every module shares: the enumerations and tables of the message schema. */
module Types {

  datatype Option<+T> = None | Some(value: T)

  /** NoSide is the schema's `None`: in a book update it announces a snapshot. */
  datatype Side = Buy | Sell | NoSide

  datatype OrderType = Limit | Market | IOC | FOK

  datatype OrderAction = NewOrder | CancelOrder | ModifyOrder

  /** OtherExec stands for any byte the schema does not name. */
  datatype ExecType = New | PartialFill | Fill | Cancelled | Replaced | OrderStatus | Complete | OtherExec

  datatype OrderRequest = OrderRequest(
    action: OrderAction, execId: nat, orderId: nat, clientId: nat, symbolId: nat,
    side: Side, orderType: OrderType, p: int, q: nat, visibleQty: nat, timestamp: nat)

  datatype OrderResponse = OrderResponse(
    execType: ExecType, orderId: nat, clientId: nat, execId: nat, symbolId: nat,
    side: Side, p: int, q: nat, rejectCode: int)

  /** One message of the level-3 feed; `qty` is the filled quantity of a fill. */
  datatype L3Message = L3Message(execType: ExecType, orderId: nat, side: Side, price: int, qty: nat)
}
