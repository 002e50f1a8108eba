/** The values of include/model.h and include/message.h: orders, items and
    messages compared structurally. The objects that hold them are in Objects.dfy. */
module Model {
  import opened Wrappers

  datatype ClientMode = INVALID | UPDATER | DISPLAY

  datatype ItemStatus = INVALID | NEW | IN_PROGRESS | DONE

  datatype OrderStatus = INVALID | NEW | IN_PROGRESS | DONE | DELIVERED

  datatype MessageType =
    | INVALID
    | LOGIN | QUIT | ORDER_NEW | ITEM_UPDATE | ORDER_UPDATE
    | OK | ERROR
    | DISP_ORDER | DISP_ITEM_UPDATE | DISP_ORDER_UPDATE | DISP_HEARTBEAT

  datatype Item = Item(orderId: int, id: int, status: ItemStatus, desc: string, qty: int)

  datatype Order = Order(id: int, status: OrderStatus, items: seq<Item>)

  /** All the fields of class Message; a message type uses only some of them. */
  datatype Message = Message(
    kind: MessageType,
    mode: ClientMode,
    str: string,
    order: Option<Order>,
    orderId: int,
    orderStatus: OrderStatus,
    itemId: int,
    itemStatus: ItemStatus)
  {
    predicate HasMode() { mode != ClientMode.INVALID }
    predicate HasStr() { str != "" }
    predicate HasOrder() { order.Some? }
    predicate HasOrderId() { orderId >= 0 }
    predicate HasOrderStatus() { orderStatus != OrderStatus.INVALID }
    predicate HasItemId() { itemId >= 0 }
    predicate HasItemStatus() { itemStatus != ItemStatus.INVALID }
  }

  // The constructors of class Message (src/message.cpp:3-54).

  function PlainMessage(kind: MessageType): Message {
    Message(kind, ClientMode.INVALID, "", None, -1, OrderStatus.INVALID, -1, ItemStatus.INVALID)
  }

  function StrMessage(kind: MessageType, str: string): Message {
    PlainMessage(kind).(str := str)
  }

  function LoginMessage(mode: ClientMode, str: string): Message {
    PlainMessage(LOGIN).(mode := mode, str := str)
  }

  function OrderMessage(kind: MessageType, order: Order): Message {
    PlainMessage(kind).(order := Some(order))
  }

  function StatusMessage(kind: MessageType, orderId: int, status: OrderStatus): Message {
    PlainMessage(kind).(orderId := orderId, orderStatus := status)
  }

  function ItemMessage(kind: MessageType, orderId: int, itemId: int, status: ItemStatus): Message {
    PlainMessage(kind).(orderId := orderId, itemId := itemId, itemStatus := status)
  }

  /** Order::find_item: the index of the first item with the given id. */
  function FindItem(items: seq<Item>, id: int): (r: Option<nat>)
    ensures r.Some? ==> r.value < |items| && items[r.value].id == id
    ensures r.Some? ==> forall j | 0 <= j < r.value :: items[j].id != id
    ensures r.None? <==> forall j | 0 <= j < |items| :: items[j].id != id
  {
    FindItemFrom(items, id, 0)
  }

  function FindItemFrom(items: seq<Item>, id: int, from: nat): (r: Option<nat>)
    requires from <= |items|
    ensures r.Some? ==> from <= r.value < |items| && items[r.value].id == id
    ensures r.Some? ==> forall j | from <= j < r.value :: items[j].id != id
    ensures r.None? ==> forall j | from <= j < |items| :: items[j].id != id
    decreases |items| - from
  {
    if from == |items| then None
    else if items[from].id == id then Some(from)
    else FindItemFrom(items, id, from + 1)
  }

  /** Message::operator==: the order on the left must be matched, the one on the right need not be. */
  predicate OperatorEquals(a: Message, b: Message) {
    !(a.kind != b.kind
      || a.mode != b.mode
      || a.str != b.str
      || (a.HasOrder() && (!b.HasOrder() || a.order.value != b.order.value))
      || a.orderId != b.orderId
      || a.orderStatus != b.orderStatus
      || a.itemId != b.itemId
      || a.itemStatus != b.itemStatus)
  }

  /** The operator is structural equality exactly when it is asked in both directions, and
      one direction is not enough. */
  lemma OperatorEqualsIsOneSided(a: Message, b: Message)
    ensures a == b <==> OperatorEquals(a, b) && OperatorEquals(b, a)
    ensures OperatorEquals(a, b) && a != b <==>
            a.order.None? && b.order.Some? && a == b.(order := None)
    ensures exists x, y :: OperatorEquals(x, y) && !OperatorEquals(y, x)
  {
    var x := PlainMessage(DISP_ORDER);
    var y := OrderMessage(DISP_ORDER, Order(1, OrderStatus.NEW, []));
    assert OperatorEquals(x, y) && !OperatorEquals(y, x);
  }
}
