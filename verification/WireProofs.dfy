/** What the codec keeps: the exact round-trip domain and the exact image of decode. */
module WireProofs {
  import opened Wrappers
  import opened Model
  import opened Text
  import opened Wire

  // ----- the domain -----

  predicate PositiveInt(n: int) {
    1 <= n <= INT_MAX
  }

  /** Holds none of the four separators. */
  predicate Clean(s: string) {
    '|' !in s && ',' !in s && ';' !in s && ':' !in s
  }

  predicate WireItem(i: Item) {
    PositiveInt(i.orderId) && PositiveInt(i.id) && PositiveInt(i.qty) && i.status != ItemStatus.INVALID && Clean(i.desc)
  }

  predicate WireOrder(o: Order) {
    PositiveInt(o.id) && o.status != OrderStatus.INVALID && o.items != [] && forall i | i in o.items :: WireItem(i)
  }

  /** A message that decode can produce: the fields of its type are well formed and the others are unset. */
  predicate Decodable(m: Message) {
    match m.kind
    case LOGIN => m == LoginMessage(m.mode, m.str) && m.HasMode() && '|' !in m.str
    case QUIT | OK | ERROR => m == StrMessage(m.kind, m.str) && '|' !in m.str
    case ORDER_NEW | DISP_ORDER => m.HasOrder() && m == OrderMessage(m.kind, m.order.value) && WireOrder(m.order.value)
    case ITEM_UPDATE | DISP_ITEM_UPDATE =>
      && m == ItemMessage(m.kind, m.orderId, m.itemId, m.itemStatus)
      && PositiveInt(m.orderId) && PositiveInt(m.itemId) && m.HasItemStatus()
    case ORDER_UPDATE | DISP_ORDER_UPDATE =>
      && m == StatusMessage(m.kind, m.orderId, m.orderStatus)
      && PositiveInt(m.orderId) && m.HasOrderStatus()
    case DISP_HEARTBEAT => m == PlainMessage(m.kind)
    case INVALID => false
  }

  /** A decodable message that encode also accepts: its text, if its type has one, is not empty. */
  predicate Sendable(m: Message) {
    Decodable(m) && (m.kind in {LOGIN, QUIT, OK, ERROR} ==> m.HasStr())
  }

  // ----- items -----

  function ItemParts(i: Item): seq<string> {
    [ToString(i.orderId), ToString(i.id), ItemStatusToStr(i.status), i.desc, ToString(i.qty)]
  }

  lemma EncodeItemJoins(i: Item)
    ensures EncodeItem(i) == Join(ItemParts(i), ':')
  {
    var p := ItemParts(i);
    assert p[1..][1..][1..][1..] == [p[4]];
    assert p[1..][1..][1..] == [p[3], p[4]];
    assert p[1..][1..] == [p[2], p[3], p[4]];
    assert p[1..] == [p[1], p[2], p[3], p[4]];
    calc {
      Join(p, ':');
      p[0] + ":" + Join(p[1..], ':');
      p[0] + ":" + (p[1] + ":" + Join(p[1..][1..], ':'));
      p[0] + ":" + (p[1] + ":" + (p[2] + ":" + Join(p[1..][1..][1..], ':')));
      p[0] + ":" + (p[1] + ":" + (p[2] + ":" + (p[3] + ":" + p[4])));
      EncodeItem(i);
    }
  }

  lemma ItemStatusNames(st: ItemStatus)
    ensures Clean(ItemStatusToStr(st))
    ensures StrToItemStatus(ItemStatusToStr(st)) == st
  {
  }

  lemma OrderStatusNames(st: OrderStatus)
    ensures Clean(OrderStatusToStr(st))
    ensures StrToOrderStatus(OrderStatusToStr(st)) == st
  {
  }

  lemma IntText(n: int)
    ensures Clean(ToString(n))
    ensures ParsePositiveInt(ToString(n)).Ok? <==> PositiveInt(n)
    ensures PositiveInt(n) ==> ParsePositiveInt(ToString(n)) == Ok(n)
  {
    ToStringFree(n, '|');
    ToStringFree(n, ',');
    ToStringFree(n, ';');
    ToStringFree(n, ':');
    ParsePrinted(n);
  }

  lemma ItemPartsFree(i: Item, c: char)
    requires Clean(i.desc) && c in {'|', ',', ';', ':'}
    ensures forall k | 0 <= k < 5 :: c !in ItemParts(i)[k]
  {
    IntText(i.orderId);
    IntText(i.id);
    IntText(i.qty);
    ItemStatusNames(i.status);
  }

  lemma ItemTextFree(i: Item)
    requires Clean(i.desc)
    ensures '|' !in EncodeItem(i) && ',' !in EncodeItem(i) && ';' !in EncodeItem(i)
  {
    EncodeItemJoins(i);
    ItemPartsFree(i, '|');
    ItemPartsFree(i, ',');
    ItemPartsFree(i, ';');
    JoinChars(ItemParts(i), ':', '|');
    JoinChars(ItemParts(i), ':', ',');
    JoinChars(ItemParts(i), ':', ';');
  }

  lemma ItemRoundTrip(i: Item)
    requires WireItem(i)
    ensures DecodeItem(EncodeItem(i)) == Ok(i)
  {
    EncodeItemJoins(i);
    ItemPartsFree(i, ':');
    SplitJoinFree(ItemParts(i), ':');
    IntText(i.orderId);
    IntText(i.id);
    IntText(i.qty);
    ItemStatusNames(i.status);
  }

  lemma ItemImage(s: string, i: Item)
    requires '|' !in s && ',' !in s && ';' !in s
    requires DecodeItem(s) == Ok(i)
    ensures WireItem(i)
  {
    var parts := Split(s, ':');
    SplitPieceFree(s, ':', 3, '|');
    SplitPieceFree(s, ':', 3, ',');
    SplitPieceFree(s, ':', 3, ';');
    SplitPieceFree(s, ':', 3, ':');
    ParseImage(parts[0]);
    ParseImage(parts[1]);
    ParseImage(parts[4]);
  }

  lemma ParseImage(s: string)
    ensures ParsePositiveInt(s).Ok? ==> PositiveInt(ParsePositiveInt(s).value)
  {
  }

  // ----- orders -----

  lemma DecodeItemTexts(items: seq<Item>)
    requires forall i | i in items :: WireItem(i)
    ensures Traverse(DecodeItem, ItemTexts(items)) == Ok(items)
  {
    forall k | 0 <= k < |items|
      ensures DecodeItem(ItemTexts(items)[k]) == Ok(items[k])
    {
      assert items[k] in items;
      ItemRoundTrip(items[k]);
    }
    TraverseOk(DecodeItem, ItemTexts(items), items);
  }

  function OrderParts(o: Order): seq<string>
    requires o.items != []
  {
    [ToString(o.id), OrderStatusToStr(o.status), Join(ItemTexts(o.items), ';')]
  }

  lemma EncodeOrderJoins(o: Order)
    requires o.items != []
    ensures EncodeOrder(Some(o)) == Ok(Join(OrderParts(o), ','))
  {
    var p := OrderParts(o);
    assert p[1..][1..] == [p[2]];
    calc {
      Join(p, ',');
      p[0] + "," + Join(p[1..], ',');
      p[0] + "," + (p[1] + "," + Join(p[1..][1..], ','));
      p[0] + "," + p[1] + "," + p[2];
    }
  }

  lemma OrderTextFree(o: Order)
    requires WireOrder(o)
    ensures forall k | 0 <= k < 3 :: ',' !in OrderParts(o)[k]
    ensures '|' !in EncodeOrder(Some(o)).value
    ensures forall k | 0 <= k < |o.items| :: ';' !in ItemTexts(o.items)[k]
  {
    forall k | 0 <= k < |o.items|
      ensures ';' !in ItemTexts(o.items)[k] && ',' !in ItemTexts(o.items)[k] && '|' !in ItemTexts(o.items)[k]
    {
      assert o.items[k] in o.items;
      ItemTextFree(o.items[k]);
    }
    JoinChars(ItemTexts(o.items), ';', ',');
    JoinChars(ItemTexts(o.items), ';', '|');
    IntText(o.id);
    OrderStatusNames(o.status);
    JoinChars(OrderParts(o), ',', '|');
    EncodeOrderJoins(o);
  }

  lemma OrderRoundTrip(o: Order)
    requires WireOrder(o)
    ensures EncodeOrder(Some(o)).Ok?
    ensures DecodeOrder(EncodeOrder(Some(o)).value) == Ok(o)
  {
    OrderTextFree(o);
    EncodeOrderJoins(o);
    SplitJoinFree(OrderParts(o), ',');
    SplitJoinFree(ItemTexts(o.items), ';');
    DecodeItemTexts(o.items);
    IntText(o.id);
    OrderStatusNames(o.status);
  }

  lemma OrderImage(s: string, o: Order)
    requires '|' !in s
    requires DecodeOrder(s) == Ok(o)
    ensures WireOrder(o)
  {
    var fields := Split(s, ',');
    SplitPieceFree(s, ',', 2, '|');
    SplitPieceFree(s, ',', 2, ',');
    ParseImage(fields[0]);
    ItemsImage(fields[2], o.items);
  }

  lemma ItemsImage(s: string, items: seq<Item>)
    requires '|' !in s && ',' !in s
    requires Traverse(DecodeItem, Split(s, ';')) == Ok(items)
    ensures items != [] && forall i | i in items :: WireItem(i)
  {
    var texts := Split(s, ';');
    forall i | i in items
      ensures WireItem(i)
    {
      var k: nat :| k < |items| && items[k] == i;
      SplitPieceFree(s, ';', k, '|');
      SplitPieceFree(s, ';', k, ',');
      SplitPieceFree(s, ';', k, ';');
      ItemImage(texts[k], i);
    }
  }

  // ----- messages -----

  /** The `|`-separated fields of an encoded message. */
  function MessageParts(m: Message): seq<string> {
    [MessageTypeToStr(m.kind)] +
    match m.kind
    case LOGIN => [ClientModeToStr(m.mode), m.str]
    case QUIT | OK | ERROR => [m.str]
    case ORDER_NEW | DISP_ORDER => [if EncodeOrder(m.order).Ok? then EncodeOrder(m.order).value else ""]
    case ITEM_UPDATE | DISP_ITEM_UPDATE => [ToString(m.orderId), ToString(m.itemId), ItemStatusToStr(m.itemStatus)]
    case ORDER_UPDATE | DISP_ORDER_UPDATE => [ToString(m.orderId), OrderStatusToStr(m.orderStatus)]
    case DISP_HEARTBEAT | INVALID => []
  }

  lemma Join2(a: string, b: string, c: char)
    ensures Join([a, b], c) == a + [c] + b
  {
    assert [a, b][1..] == [b];
  }

  lemma Join3(a: string, b: string, d: string, c: char)
    ensures Join([a, b, d], c) == a + [c] + b + [c] + d
  {
    assert [a, b, d][1..] == [b, d];
    Join2(b, d, c);
    assert a + [c] + (b + [c] + d) == a + [c] + b + [c] + d;
  }

  lemma Join4(a: string, b: string, d: string, e: string, c: char)
    ensures Join([a, b, d, e], c) == a + [c] + b + [c] + d + [c] + e
  {
    assert [a, b, d, e][1..] == [b, d, e];
    Join3(b, d, e, c);
    assert a + [c] + (b + [c] + d + [c] + e) == a + [c] + b + [c] + d + [c] + e;
  }

  lemma EncodeJoins(m: Message)
    requires Encode(m).Ok?
    ensures Encode(m) == Ok(Join(MessageParts(m), '|'))
  {
    var p := MessageParts(m);
    var name := MessageTypeToStr(m.kind);
    match m.kind {
      case LOGIN => Join3(p[0], p[1], p[2], '|'); assert name + "|" == "LOGIN|";
      case QUIT => Join2(p[0], p[1], '|'); assert name + "|" == "QUIT|";
      case OK => Join2(p[0], p[1], '|'); assert name + "|" == "OK|";
      case ERROR => Join2(p[0], p[1], '|'); assert name + "|" == "ERROR|";
      case ORDER_NEW => Join2(p[0], p[1], '|'); assert name + "|" == "ORDER_NEW|";
      case DISP_ORDER => Join2(p[0], p[1], '|'); assert name + "|" == "DISP_ORDER|";
      case ITEM_UPDATE => Join4(p[0], p[1], p[2], p[3], '|'); assert name + "|" == "ITEM_UPDATE|";
      case DISP_ITEM_UPDATE => Join4(p[0], p[1], p[2], p[3], '|'); assert name + "|" == "DISP_ITEM_UPDATE|";
      case ORDER_UPDATE => Join3(p[0], p[1], p[2], '|'); assert name + "|" == "ORDER_UPDATE|";
      case DISP_ORDER_UPDATE => Join3(p[0], p[1], p[2], '|'); assert name + "|" == "DISP_ORDER_UPDATE|";
      case DISP_HEARTBEAT =>
    }
  }

  lemma MessageTypeNames(k: MessageType)
    ensures '|' !in MessageTypeToStr(k)
    ensures StrToMessageType(MessageTypeToStr(k)) == k
  {
  }

  lemma ClientModeNames(m: ClientMode)
    ensures '|' !in ClientModeToStr(m)
    ensures StrToClientMode(ClientModeToStr(m)) == m
  {
  }

  lemma NamesAndNumbers(m: Message)
    ensures '|' !in MessageTypeToStr(m.kind) && StrToMessageType(MessageTypeToStr(m.kind)) == m.kind
    ensures '|' !in ClientModeToStr(m.mode) && StrToClientMode(ClientModeToStr(m.mode)) == m.mode
    ensures '|' !in ItemStatusToStr(m.itemStatus) && StrToItemStatus(ItemStatusToStr(m.itemStatus)) == m.itemStatus
    ensures '|' !in OrderStatusToStr(m.orderStatus)
            && StrToOrderStatus(OrderStatusToStr(m.orderStatus)) == m.orderStatus
    ensures '|' !in ToString(m.orderId) && '|' !in ToString(m.itemId)
    ensures PositiveInt(m.orderId) ==> ParsePositiveInt(ToString(m.orderId)) == Ok(m.orderId)
    ensures PositiveInt(m.itemId) ==> ParsePositiveInt(ToString(m.itemId)) == Ok(m.itemId)
  {
    MessageTypeNames(m.kind);
    ClientModeNames(m.mode);
    ItemStatusNames(m.itemStatus);
    OrderStatusNames(m.orderStatus);
    IntText(m.orderId);
    IntText(m.itemId);
  }

  lemma SendableParts(m: Message)
    requires Sendable(m)
    ensures forall k | 0 <= k < |MessageParts(m)| :: '|' !in MessageParts(m)[k]
  {
    if m.kind in {ORDER_NEW, DISP_ORDER} {
      OrderMessageParts(m);
    } else if m.kind in {LOGIN, QUIT, OK, ERROR} {
      TextParts(m);
    } else {
      UpdateParts(m);
    }
  }

  lemma TextParts(m: Message)
    requires m.kind in {LOGIN, QUIT, OK, ERROR} && '|' !in m.str
    ensures forall k | 0 <= k < |MessageParts(m)| :: '|' !in MessageParts(m)[k]
  {
    MessageTypeNames(m.kind);
    ClientModeNames(m.mode);
  }

  lemma UpdateParts(m: Message)
    requires m.kind !in {ORDER_NEW, DISP_ORDER, LOGIN, QUIT, OK, ERROR}
    ensures forall k | 0 <= k < |MessageParts(m)| :: '|' !in MessageParts(m)[k]
  {
    NamesAndNumbers(m);
  }

  lemma OrderMessageParts(m: Message)
    requires m.kind in {ORDER_NEW, DISP_ORDER} && m.HasOrder() && WireOrder(m.order.value)
    ensures forall k | 0 <= k < |MessageParts(m)| :: '|' !in MessageParts(m)[k]
  {
    MessageTypeNames(m.kind);
    OrderRoundTrip(m.order.value);
    OrderTextFree(m.order.value);
    PartsOfOrderMessage(m, EncodeOrder(m.order).value);
  }

  lemma PartsOfOrderMessage(m: Message, text: string)
    requires m.kind in {ORDER_NEW, DISP_ORDER} && EncodeOrder(m.order) == Ok(text)
    ensures MessageParts(m) == [MessageTypeToStr(m.kind), text]
  {
  }

  lemma SendableEncodes(m: Message)
    requires Sendable(m)
    ensures Encode(m).Ok?
    ensures Split(Encode(m).value, '|') == MessageParts(m)
  {
    SendableParts(m);
    if m.kind in {ORDER_NEW, DISP_ORDER} {
      OrderRoundTrip(m.order.value);
    }
    EncodeJoins(m);
    SplitJoinFree(MessageParts(m), '|');
  }

  lemma SendableRoundTrip(m: Message)
    requires Sendable(m)
    ensures Encode(m).Ok? && Decode(Encode(m).value) == Ok(m)
  {
    SendableEncodes(m);
    PartsDecode(m);
  }

  lemma PartsDecode(m: Message)
    requires Sendable(m)
    ensures DecodeFields(StrToMessageType(MessageParts(m)[0]), MessageParts(m)) == Ok(m)
  {
    if m.kind in {ORDER_NEW, DISP_ORDER} {
      OrderMessageDecodes(m);
    } else if m.kind in {LOGIN, QUIT, OK, ERROR} {
      TextMessageDecodes(m);
    } else {
      UpdateMessageDecodes(m);
    }
  }

  lemma TextMessageDecodes(m: Message)
    requires Sendable(m) && m.kind in {LOGIN, QUIT, OK, ERROR}
    ensures DecodeFields(StrToMessageType(MessageParts(m)[0]), MessageParts(m)) == Ok(m)
  {
    MessageTypeNames(m.kind);
    ClientModeNames(m.mode);
  }

  lemma UpdateMessageDecodes(m: Message)
    requires Sendable(m) && m.kind !in {ORDER_NEW, DISP_ORDER, LOGIN, QUIT, OK, ERROR}
    ensures DecodeFields(StrToMessageType(MessageParts(m)[0]), MessageParts(m)) == Ok(m)
  {
    NamesAndNumbers(m);
  }

  lemma OrderMessageDecodes(m: Message)
    requires Sendable(m) && m.kind in {ORDER_NEW, DISP_ORDER}
    ensures DecodeFields(StrToMessageType(MessageParts(m)[0]), MessageParts(m)) == Ok(m)
  {
    MessageTypeNames(m.kind);
    OrderRoundTrip(m.order.value);
    PartsOfOrderMessage(m, EncodeOrder(m.order).value);
  }

  lemma DecodeImage(s: string, m: Message)
    requires Decode(s) == Ok(m)
    ensures Decodable(m)
  {
    var fields := Split(s, '|');
    forall k: nat | k < |fields|
      ensures '|' !in fields[k]
    {
      SplitPieceFree(s, '|', k, '|');
    }
    FieldsImage(fields, m);
  }

  lemma FieldsImage(fields: seq<string>, m: Message)
    requires forall k: nat | k < |fields| :: '|' !in fields[k]
    requires DecodeFields(m.kind, fields) == Ok(m)
    ensures Decodable(m)
  {
    if m.kind in {ORDER_NEW, DISP_ORDER} {
      OrderImage(fields[1], m.order.value);
    } else if m.kind !in {LOGIN, QUIT, OK, ERROR} {
      UpdateImage(fields, m);
    }
  }

  lemma UpdateImage(fields: seq<string>, m: Message)
    requires DecodeFields(m.kind, fields) == Ok(m)
    ensures m.kind in {ITEM_UPDATE, DISP_ITEM_UPDATE} ==>
              && m == ItemMessage(m.kind, m.orderId, m.itemId, m.itemStatus)
              && PositiveInt(m.orderId) && PositiveInt(m.itemId) && m.HasItemStatus()
    ensures m.kind in {ORDER_UPDATE, DISP_ORDER_UPDATE} ==>
              && m == StatusMessage(m.kind, m.orderId, m.orderStatus)
              && PositiveInt(m.orderId) && m.HasOrderStatus()
  {
    if |fields| >= 2 {
      ParseImage(fields[1]);
    }
    if |fields| >= 3 {
      ParseImage(fields[2]);
    }
  }

  /** The codec round trip, exactly: encoding and decoding gives back the same message if and
      only if the message is sendable. */
  lemma RoundTripExactly(m: Message)
    ensures (Encode(m).Ok? && Decode(Encode(m).value) == Ok(m)) <==> Sendable(m)
  {
    if Sendable(m) {
      SendableRoundTrip(m);
    } else if Encode(m).Ok? && Decode(Encode(m).value) == Ok(m) {
      DecodeImage(Encode(m).value, m);
    }
  }

  /** The messages that decode can produce are exactly the decodable ones. */
  lemma DecodeImageExactly(m: Message)
    ensures (exists s :: Decode(s) == Ok(m)) <==> Decodable(m)
  {
    if s :| Decode(s) == Ok(m) {
      DecodeImage(s, m);
    }
    if Decodable(m) {
      var s := DecodablePreimage(m);
    }
  }

  lemma DecodablePreimage(m: Message) returns (s: string)
    requires Decodable(m)
    ensures Decode(s) == Ok(m)
  {
    if Sendable(m) {
      SendableRoundTrip(m);
      s := Encode(m).value;
    } else {
      var name := MessageTypeToStr(m.kind);
      MessageTypeNames(m.kind);
      ClientModeNames(m.mode);
      var parts := if m.kind == LOGIN then [name, ClientModeToStr(m.mode), ""] else [name, ""];
      s := Join(parts, '|');
      SplitJoinFree(parts, '|');
    }
  }

  /** Canonicalisation: what decode accepts can be encoded again exactly when its text, if its
      type has one, is not empty; the new text decodes to the same message. */
  lemma Canonicalises(s: string, m: Message)
    requires Decode(s) == Ok(m)
    ensures Encode(m).Ok? <==> (m.kind in {LOGIN, QUIT, OK, ERROR} ==> m.HasStr())
    ensures Encode(m).Ok? ==> Decode(Encode(m).value) == Ok(m)
  {
    DecodeImage(s, m);
    if Sendable(m) {
      SendableRoundTrip(m);
    }
  }
}
