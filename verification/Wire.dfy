/** The wire codec of src/wire.cpp. */
module Wire {
  import opened Wrappers
  import opened Model
  import opened Text

  // ----- names of enumerators -----

  function ClientModeToStr(m: ClientMode): string {
    match m
    case INVALID => "INVALID"
    case UPDATER => "UPDATER"
    case DISPLAY => "DISPLAY"
  }

  function StrToClientMode(s: string): ClientMode {
    if s == "UPDATER" then UPDATER
    else if s == "DISPLAY" then DISPLAY
    else ClientMode.INVALID
  }

  function ItemStatusToStr(st: ItemStatus): string {
    match st
    case INVALID => "INVALID"
    case NEW => "NEW"
    case IN_PROGRESS => "IN_PROGRESS"
    case DONE => "DONE"
  }

  function StrToItemStatus(s: string): ItemStatus {
    if s == "NEW" then ItemStatus.NEW
    else if s == "IN_PROGRESS" then ItemStatus.IN_PROGRESS
    else if s == "DONE" then ItemStatus.DONE
    else ItemStatus.INVALID
  }

  function OrderStatusToStr(st: OrderStatus): string {
    match st
    case INVALID => "INVALID"
    case NEW => "NEW"
    case IN_PROGRESS => "IN_PROGRESS"
    case DONE => "DONE"
    case DELIVERED => "DELIVERED"
  }

  function StrToOrderStatus(s: string): OrderStatus {
    if s == "NEW" then OrderStatus.NEW
    else if s == "IN_PROGRESS" then OrderStatus.IN_PROGRESS
    else if s == "DONE" then OrderStatus.DONE
    else if s == "DELIVERED" then OrderStatus.DELIVERED
    else OrderStatus.INVALID
  }

  function MessageTypeToStr(k: MessageType): string {
    match k
    case INVALID => "INVALID"
    case LOGIN => "LOGIN"
    case QUIT => "QUIT"
    case ORDER_NEW => "ORDER_NEW"
    case ITEM_UPDATE => "ITEM_UPDATE"
    case ORDER_UPDATE => "ORDER_UPDATE"
    case OK => "OK"
    case ERROR => "ERROR"
    case DISP_ORDER => "DISP_ORDER"
    case DISP_ITEM_UPDATE => "DISP_ITEM_UPDATE"
    case DISP_ORDER_UPDATE => "DISP_ORDER_UPDATE"
    case DISP_HEARTBEAT => "DISP_HEARTBEAT"
  }

  function StrToMessageType(s: string): MessageType {
    if s == "LOGIN" then LOGIN
    else if s == "QUIT" then QUIT
    else if s == "ORDER_NEW" then ORDER_NEW
    else if s == "ITEM_UPDATE" then ITEM_UPDATE
    else if s == "ORDER_UPDATE" then ORDER_UPDATE
    else if s == "OK" then OK
    else if s == "ERROR" then ERROR
    else if s == "DISP_ORDER" then DISP_ORDER
    else if s == "DISP_ITEM_UPDATE" then DISP_ITEM_UPDATE
    else if s == "DISP_ORDER_UPDATE" then DISP_ORDER_UPDATE
    else if s == "DISP_HEARTBEAT" then DISP_HEARTBEAT
    else MessageType.INVALID
  }

  // ----- orders -----

  function EncodeItem(i: Item): string {
    ToString(i.orderId) + ":" + ToString(i.id) + ":" + ItemStatusToStr(i.status) + ":" + i.desc + ":" + ToString(i.qty)
  }

  function ItemTexts(items: seq<Item>): (v: seq<string>)
    ensures |v| == |items|
    ensures forall k | 0 <= k < |v| :: v[k] == EncodeItem(items[k])
  {
    if items == [] then [] else [EncodeItem(items[0])] + ItemTexts(items[1..])
  }

  function EncodeOrder(order: Option<Order>): Result<string> {
    if order.None? || order.value.items == [] then Err(InvalidMessage)
    else
      var o := order.value;
      Ok(ToString(o.id) + "," + OrderStatusToStr(o.status) + "," + Join(ItemTexts(o.items), ';'))
  }

  function DecodeItem(s: string): Result<Item> {
    var parts := Split(s, ':');
    if |parts| != 5 then Err(InvalidMessage)
    else
      var orderId :- ParsePositiveInt(parts[0]);
      var id :- ParsePositiveInt(parts[1]);
      var status := StrToItemStatus(parts[2]);
      if status == ItemStatus.INVALID then Err(InvalidMessage)
      else
        var qty :- ParsePositiveInt(parts[4]);
        Ok(Item(orderId, id, status, parts[3], qty))
  }

  function DecodeOrder(s: string): Result<Order> {
    var fields := Split(s, ',');
    if |fields| != 3 then Err(InvalidMessage)
    else
      var id :- ParsePositiveInt(fields[0]);
      var status := StrToOrderStatus(fields[1]);
      if status == OrderStatus.INVALID then Err(InvalidMessage)
      else
        var items :- Traverse(DecodeItem, Split(fields[2], ';'));
        Ok(Order(id, status, items))
  }

  // ----- messages -----

  /** Wire::encode. */
  function Encode(m: Message): Result<string> {
    match m.kind
    case LOGIN =>
      if !m.HasMode() || !m.HasStr() then Err(InvalidMessage)
      else Ok("LOGIN|" + ClientModeToStr(m.mode) + "|" + m.str)
    case QUIT =>
      if !m.HasStr() then Err(InvalidMessage) else Ok("QUIT|" + m.str)
    case ORDER_NEW =>
      var text :- EncodeOrder(m.order);
      Ok("ORDER_NEW|" + text)
    case ITEM_UPDATE =>
      if !m.HasOrderId() || !m.HasItemId() || !m.HasItemStatus() then Err(InvalidMessage)
      else Ok("ITEM_UPDATE|" + ToString(m.orderId) + "|" + ToString(m.itemId) + "|" + ItemStatusToStr(m.itemStatus))
    case ORDER_UPDATE =>
      if !m.HasOrderId() || !m.HasOrderStatus() then Err(InvalidMessage)
      else Ok("ORDER_UPDATE|" + ToString(m.orderId) + "|" + OrderStatusToStr(m.orderStatus))
    case OK =>
      if !m.HasStr() then Err(InvalidMessage) else Ok("OK|" + m.str)
    case ERROR =>
      if !m.HasStr() then Err(InvalidMessage) else Ok("ERROR|" + m.str)
    case DISP_ORDER =>
      var text :- EncodeOrder(m.order);
      Ok("DISP_ORDER|" + text)
    case DISP_ITEM_UPDATE =>
      if !m.HasOrderId() || !m.HasItemId() || !m.HasItemStatus() then Err(InvalidMessage)
      else Ok("DISP_ITEM_UPDATE|" + ToString(m.orderId) + "|" + ToString(m.itemId) + "|"
          + ItemStatusToStr(m.itemStatus))
    case DISP_ORDER_UPDATE =>
      if !m.HasOrderId() || !m.HasOrderStatus() then Err(InvalidMessage)
      else Ok("DISP_ORDER_UPDATE|" + ToString(m.orderId) + "|" + OrderStatusToStr(m.orderStatus))
    case DISP_HEARTBEAT => Ok("DISP_HEARTBEAT")
    case INVALID => Err(InvalidMessage)
  }

  /** Wire::decode. */
  function Decode(s: string): Result<Message> {
    var fields := Split(s, '|');
    DecodeFields(StrToMessageType(fields[0]), fields)
  }

  /** The routing by message type inside Wire::decode. */
  function DecodeFields(kind: MessageType, fields: seq<string>): (r: Result<Message>)
    ensures r.Ok? ==> r.value.kind == kind
  {
    match kind
    case LOGIN =>
      if |fields| != 3 then Err(InvalidMessage)
      else
        var mode := StrToClientMode(fields[1]);
        if mode == ClientMode.INVALID then Err(InvalidMessage)
        else Ok(LoginMessage(mode, fields[2]))
    case QUIT | OK | ERROR =>
      if |fields| != 2 then Err(InvalidMessage)
      else Ok(StrMessage(kind, fields[1]))
    case ORDER_NEW | DISP_ORDER =>
      if |fields| != 2 then Err(InvalidMessage)
      else
        var order :- DecodeOrder(fields[1]);
        Ok(OrderMessage(kind, order))
    case ITEM_UPDATE | DISP_ITEM_UPDATE =>
      if |fields| != 4 then Err(InvalidMessage)
      else
        var orderId :- ParsePositiveInt(fields[1]);
        var itemId :- ParsePositiveInt(fields[2]);
        var status := StrToItemStatus(fields[3]);
        if status == ItemStatus.INVALID then Err(InvalidMessage)
        else Ok(ItemMessage(kind, orderId, itemId, status))
    case ORDER_UPDATE | DISP_ORDER_UPDATE =>
      if |fields| != 3 then Err(InvalidMessage)
      else
        var orderId :- ParsePositiveInt(fields[1]);
        var status := StrToOrderStatus(fields[2]);
        if status == OrderStatus.INVALID then Err(InvalidMessage)
        else Ok(StatusMessage(kind, orderId, status))
    case DISP_HEARTBEAT =>
      if |fields| != 1 then Err(InvalidMessage)
      else Ok(PlainMessage(kind))
    case INVALID => Err(InvalidMessage)
  }
}
