/** The texts that stand for items, orders and messages (src/wire.cpp:88-393), as a grammar: which texts
    decode reads, and which text encode writes. */
module Grammar {
  import opened Wrappers
  import opened Model
  import opened Text
  import opened Wire
  import opened WireProofs

  // ----- names -----

  ghost predicate KindName(s: string, k: MessageType) {
    (s, k) in {
      ("LOGIN", LOGIN), ("QUIT", QUIT), ("ORDER_NEW", ORDER_NEW), ("ITEM_UPDATE", ITEM_UPDATE),
      ("ORDER_UPDATE", ORDER_UPDATE), ("OK", OK), ("ERROR", ERROR), ("DISP_ORDER", DISP_ORDER),
      ("DISP_ITEM_UPDATE", DISP_ITEM_UPDATE), ("DISP_ORDER_UPDATE", DISP_ORDER_UPDATE),
      ("DISP_HEARTBEAT", DISP_HEARTBEAT)}
  }

  ghost predicate ModeName(s: string, m: ClientMode) {
    (s, m) in {("UPDATER", UPDATER), ("DISPLAY", DISPLAY)}
  }

  ghost predicate ItemStatusName(s: string, st: ItemStatus) {
    (s, st) in {("NEW", ItemStatus.NEW), ("IN_PROGRESS", ItemStatus.IN_PROGRESS), ("DONE", ItemStatus.DONE)}
  }

  ghost predicate OrderStatusName(s: string, st: OrderStatus) {
    (s, st) in {
      ("NEW", OrderStatus.NEW), ("IN_PROGRESS", OrderStatus.IN_PROGRESS), ("DONE", OrderStatus.DONE),
      ("DELIVERED", OrderStatus.DELIVERED)}
  }

  lemma KindNameExactly(s: string, k: MessageType)
    ensures KindName(s, k) <==> StrToMessageType(s) == k != MessageType.INVALID
  {
  }

  lemma ModeNameExactly(s: string, m: ClientMode)
    ensures ModeName(s, m) <==> StrToClientMode(s) == m != ClientMode.INVALID
  {
  }

  lemma ItemStatusNameExactly(s: string, st: ItemStatus)
    ensures ItemStatusName(s, st) <==> StrToItemStatus(s) == st != ItemStatus.INVALID
  {
  }

  lemma OrderStatusNameExactly(s: string, st: OrderStatus)
    ensures OrderStatusName(s, st) <==> StrToOrderStatus(s) == st != OrderStatus.INVALID
  {
  }

  // ----- what decode reads -----

  /** The fields of s: s is these with one separator between neighbours, and none of them holds it. */
  ghost predicate Fields(s: string, fields: seq<string>, sep: char) {
    fields != [] && s == Join(fields, sep) && forall i | 0 <= i < |fields| :: sep !in fields[i]
  }

  lemma FieldsExactly(s: string, fields: seq<string>, sep: char)
    ensures Fields(s, fields, sep) <==> fields == Split(s, sep)
  {
    JoinSplit(s, sep);
    forall i | 0 <= i < |Split(s, sep)|
      ensures sep !in Split(s, sep)[i]
    {
      SplitPieceFree(s, sep, i, sep);
    }
    if Fields(s, fields, sep) {
      SplitJoinFree(fields, sep);
    }
  }

  /** Five fields: the order's id, the item's, the status, the description, the quantity. */
  ghost predicate ItemFields(f: seq<string>, i: Item) {
    && |f| == 5
    && PositiveIntText(f[0], i.orderId) && PositiveIntText(f[1], i.id) && ItemStatusName(f[2], i.status)
    && f[3] == i.desc && PositiveIntText(f[4], i.qty)
  }

  ghost predicate ItemText(s: string, i: Item) {
    exists f :: Fields(s, f, ':') && ItemFields(f, i)
  }

  lemma ItemFieldsExactly(s: string, f: seq<string>, i: Item)
    requires f == Split(s, ':')
    ensures DecodeItem(s) == Ok(i) <==> ItemFields(f, i)
  {
    if |f| == 5 {
      ParsePositiveIntAccepts(f[0], i.orderId);
      ParsePositiveIntAccepts(f[1], i.id);
      ParsePositiveIntAccepts(f[4], i.qty);
      ItemStatusNameExactly(f[2], i.status);
      ItemParsed(s, f, i);
    }
  }

  lemma ItemParsed(s: string, f: seq<string>, i: Item)
    requires f == Split(s, ':') && |f| == 5
    ensures DecodeItem(s) == Ok(i) <==>
            && ParsePositiveInt(f[0]) == Ok(i.orderId) && ParsePositiveInt(f[1]) == Ok(i.id)
            && StrToItemStatus(f[2]) == i.status != ItemStatus.INVALID
            && f[3] == i.desc && ParsePositiveInt(f[4]) == Ok(i.qty)
  {
  }

  lemma DecodeItemExactly(s: string, i: Item)
    ensures DecodeItem(s) == Ok(i) <==> ItemText(s, i)
  {
    var f := Split(s, ':');
    FieldsExactly(s, f, ':');
    ItemFieldsExactly(s, f, i);
    if f' :| Fields(s, f', ':') && ItemFields(f', i) {
      FieldsExactly(s, f', ':');
    }
  }

  /** Three fields: the id, the status, and the texts of the items, at least one. */
  ghost predicate OrderFields(f: seq<string>, texts: seq<string>, o: Order) {
    && |f| == 3
    && PositiveIntText(f[0], o.id) && OrderStatusName(f[1], o.status)
    && Fields(f[2], texts, ';')
    && |texts| == |o.items| && forall i | 0 <= i < |texts| :: ItemText(texts[i], o.items[i])
  }

  ghost predicate OrderText(s: string, o: Order) {
    exists f, texts :: Fields(s, f, ',') && OrderFields(f, texts, o)
  }

  lemma ItemsExactly(texts: seq<string>, items: seq<Item>)
    ensures Traverse(DecodeItem, texts) == Ok(items) <==>
            |texts| == |items| && forall i | 0 <= i < |texts| :: ItemText(texts[i], items[i])
  {
    if |texts| == |items| {
      forall i | 0 <= i < |texts|
        ensures DecodeItem(texts[i]) == Ok(items[i]) <==> ItemText(texts[i], items[i])
      {
        DecodeItemExactly(texts[i], items[i]);
      }
      if forall i | 0 <= i < |texts| :: ItemText(texts[i], items[i]) {
        TraverseOk(DecodeItem, texts, items);
      }
    }
  }

  lemma OrderParsed(s: string, f: seq<string>, o: Order)
    requires f == Split(s, ',') && |f| == 3
    ensures DecodeOrder(s) == Ok(o) <==>
            && ParsePositiveInt(f[0]) == Ok(o.id) && StrToOrderStatus(f[1]) == o.status != OrderStatus.INVALID
            && Traverse(DecodeItem, Split(f[2], ';')) == Ok(o.items)
  {
  }

  lemma OrderFieldsExactly(s: string, f: seq<string>, o: Order)
    requires f == Split(s, ',')
    ensures DecodeOrder(s) == Ok(o) <==> |f| == 3 && OrderFields(f, Split(f[2], ';'), o)
  {
    if |f| == 3 {
      ParsePositiveIntAccepts(f[0], o.id);
      OrderStatusNameExactly(f[1], o.status);
      FieldsExactly(f[2], Split(f[2], ';'), ';');
      ItemsExactly(Split(f[2], ';'), o.items);
      OrderParsed(s, f, o);
    }
  }

  /** Which texts are read as which order. */
  lemma DecodeOrderExactly(s: string, o: Order)
    ensures DecodeOrder(s) == Ok(o) <==> OrderText(s, o)
  {
    var f := Split(s, ',');
    FieldsExactly(s, f, ',');
    OrderFieldsExactly(s, f, o);
    if f', texts :| Fields(s, f', ',') && OrderFields(f', texts, o) {
      FieldsExactly(s, f', ',');
      FieldsExactly(f'[2], texts, ';');
    }
  }

  /** The fields of each type of message; what a type does not use is unset. */
  ghost predicate MessageFields(f: seq<string>, m: Message) {
    && f != [] && KindName(f[0], m.kind)
    && match m.kind
       case LOGIN =>
         && |f| == 3 && ModeName(f[1], m.mode)
         && m == Message(LOGIN, m.mode, f[2], None, -1, OrderStatus.INVALID, -1, ItemStatus.INVALID)
       case QUIT | OK | ERROR =>
         && |f| == 2
         && m == Message(m.kind, ClientMode.INVALID, f[1], None, -1, OrderStatus.INVALID, -1, ItemStatus.INVALID)
       case ORDER_NEW | DISP_ORDER =>
         && |f| == 2 && m.order.Some? && OrderText(f[1], m.order.value)
         && m == Message(m.kind, ClientMode.INVALID, "", m.order, -1, OrderStatus.INVALID, -1, ItemStatus.INVALID)
       case ITEM_UPDATE | DISP_ITEM_UPDATE =>
         && |f| == 4
         && PositiveIntText(f[1], m.orderId) && PositiveIntText(f[2], m.itemId) && ItemStatusName(f[3], m.itemStatus)
         && m == Message(m.kind, ClientMode.INVALID, "", None, m.orderId, OrderStatus.INVALID, m.itemId, m.itemStatus)
       case ORDER_UPDATE | DISP_ORDER_UPDATE =>
         && |f| == 3
         && PositiveIntText(f[1], m.orderId) && OrderStatusName(f[2], m.orderStatus)
         && m == Message(m.kind, ClientMode.INVALID, "", None, m.orderId, m.orderStatus, -1, ItemStatus.INVALID)
       case DISP_HEARTBEAT =>
         && |f| == 1
         && m == Message(m.kind, ClientMode.INVALID, "", None, -1, OrderStatus.INVALID, -1, ItemStatus.INVALID)
       case INVALID => false
  }

  ghost predicate MessageText(s: string, m: Message) {
    exists f :: Fields(s, f, '|') && MessageFields(f, m)
  }

  lemma TextFieldsExactly(f: seq<string>, m: Message)
    requires f != [] && m.kind in {LOGIN, QUIT, OK, ERROR} && KindName(f[0], m.kind)
    ensures DecodeFields(m.kind, f) == Ok(m) <==> MessageFields(f, m)
  {
    if |f| == 3 {
      ModeNameExactly(f[1], m.mode);
    }
  }

  lemma OrderMessageFieldsExactly(f: seq<string>, m: Message)
    requires f != [] && m.kind in {ORDER_NEW, DISP_ORDER} && KindName(f[0], m.kind)
    ensures DecodeFields(m.kind, f) == Ok(m) <==> MessageFields(f, m)
  {
    if |f| == 2 && m.order.Some? {
      DecodeOrderExactly(f[1], m.order.value);
    }
  }

  lemma ItemUpdateFieldsExactly(f: seq<string>, m: Message)
    requires f != [] && m.kind in {ITEM_UPDATE, DISP_ITEM_UPDATE} && KindName(f[0], m.kind)
    ensures DecodeFields(m.kind, f) == Ok(m) <==> MessageFields(f, m)
  {
    if |f| == 4 {
      ParsePositiveIntAccepts(f[1], m.orderId);
      ParsePositiveIntAccepts(f[2], m.itemId);
      ItemStatusNameExactly(f[3], m.itemStatus);
    }
  }

  lemma OrderUpdateFieldsExactly(f: seq<string>, m: Message)
    requires f != [] && m.kind in {ORDER_UPDATE, DISP_ORDER_UPDATE} && KindName(f[0], m.kind)
    ensures DecodeFields(m.kind, f) == Ok(m) <==> MessageFields(f, m)
  {
    if |f| == 3 {
      ParsePositiveIntAccepts(f[1], m.orderId);
      OrderStatusNameExactly(f[2], m.orderStatus);
    }
  }

  lemma HeartbeatFieldsExactly(f: seq<string>, m: Message)
    requires f != [] && m.kind in {DISP_HEARTBEAT, MessageType.INVALID}
    requires m.kind != MessageType.INVALID ==> KindName(f[0], m.kind)
    ensures DecodeFields(m.kind, f) == Ok(m) <==> MessageFields(f, m)
  {
  }

  lemma MessageFieldsExactly(f: seq<string>, m: Message)
    requires f != []
    ensures DecodeFields(StrToMessageType(f[0]), f) == Ok(m) <==> MessageFields(f, m)
  {
    KindNameExactly(f[0], m.kind);
    if StrToMessageType(f[0]) == m.kind {
      if m.kind in {LOGIN, QUIT, OK, ERROR} {
        TextFieldsExactly(f, m);
      } else if m.kind in {ORDER_NEW, DISP_ORDER} {
        OrderMessageFieldsExactly(f, m);
      } else if m.kind in {ITEM_UPDATE, DISP_ITEM_UPDATE} {
        ItemUpdateFieldsExactly(f, m);
      } else if m.kind in {ORDER_UPDATE, DISP_ORDER_UPDATE} {
        OrderUpdateFieldsExactly(f, m);
      } else {
        HeartbeatFieldsExactly(f, m);
      }
    }
  }

  /** Which texts are read as which message; every other text is refused as an invalid message. */
  lemma DecodeExactly(s: string, m: Message)
    ensures Decode(s) == Ok(m) <==> MessageText(s, m)
    ensures Decode(s).Err? ==> Decode(s) == Err(InvalidMessage)
  {
    var f := Split(s, '|');
    FieldsExactly(s, f, '|');
    MessageFieldsExactly(f, m);
    if f' :| Fields(s, f', '|') && MessageFields(f', m) {
      FieldsExactly(s, f', '|');
    }
    FieldsFail(StrToMessageType(f[0]), f);
  }

  lemma {:induction false} ItemsFail(texts: seq<string>)
    ensures Traverse(DecodeItem, texts).Err? ==> Traverse(DecodeItem, texts) == Err(InvalidMessage)
  {
    if texts != [] {
      ItemFails(texts[0]);
      ItemsFail(texts[1..]);
    }
  }

  lemma ItemFails(s: string)
    ensures DecodeItem(s).Err? ==> DecodeItem(s) == Err(InvalidMessage)
  {
  }

  lemma OrderFails(s: string)
    ensures DecodeOrder(s).Err? ==> DecodeOrder(s) == Err(InvalidMessage)
  {
    var f := Split(s, ',');
    if |f| == 3 {
      ItemsFail(Split(f[2], ';'));
    }
  }

  lemma FieldsFail(k: MessageType, f: seq<string>)
    requires f != []
    ensures DecodeFields(k, f).Err? ==> DecodeFields(k, f) == Err(InvalidMessage)
  {
    if k in {ORDER_NEW, DISP_ORDER} && |f| == 2 {
      OrderFails(f[1]);
    }
  }

  // ----- what encode writes -----

  /** The same five fields, the numbers in their decimal text. */
  ghost predicate ItemSpelling(f: seq<string>, i: Item) {
    && |f| == 5
    && DecimalText(f[0], i.orderId) && DecimalText(f[1], i.id)
    && (if i.status == ItemStatus.INVALID then f[2] == "INVALID" else ItemStatusName(f[2], i.status))
    && f[3] == i.desc && DecimalText(f[4], i.qty)
  }

  ghost predicate ItemSpelled(t: string, i: Item) {
    exists f :: ItemSpelling(f, i) && t == Join(f, ':')
  }

  ghost predicate OrderSpelling(f: seq<string>, texts: seq<string>, o: Order) {
    && |f| == 3
    && DecimalText(f[0], o.id)
    && (if o.status == OrderStatus.INVALID then f[1] == "INVALID" else OrderStatusName(f[1], o.status))
    && o.items != [] && |texts| == |o.items| && f[2] == Join(texts, ';')
    && forall i | 0 <= i < |texts| :: ItemSpelled(texts[i], o.items[i])
  }

  ghost predicate OrderSpelled(s: string, o: Order) {
    exists f, texts :: OrderSpelling(f, texts, o) && s == Join(f, ',')
  }

  /** The fields of each type of message; without those that its type needs, a message is not written. */
  ghost predicate MessageSpelling(f: seq<string>, m: Message) {
    && f != [] && KindName(f[0], m.kind)
    && match m.kind
       case LOGIN =>
         m.mode != ClientMode.INVALID && m.str != "" && |f| == 3 && ModeName(f[1], m.mode) && f[2] == m.str
       case QUIT | OK | ERROR => m.str != "" && |f| == 2 && f[1] == m.str
       case ORDER_NEW | DISP_ORDER => m.order.Some? && |f| == 2 && OrderSpelled(f[1], m.order.value)
       case ITEM_UPDATE | DISP_ITEM_UPDATE =>
         && m.orderId >= 0 && m.itemId >= 0 && m.itemStatus != ItemStatus.INVALID && |f| == 4
         && DecimalText(f[1], m.orderId) && DecimalText(f[2], m.itemId) && ItemStatusName(f[3], m.itemStatus)
       case ORDER_UPDATE | DISP_ORDER_UPDATE =>
         && m.orderId >= 0 && m.orderStatus != OrderStatus.INVALID && |f| == 3
         && DecimalText(f[1], m.orderId) && OrderStatusName(f[2], m.orderStatus)
       case DISP_HEARTBEAT => |f| == 1
       case INVALID => false
  }

  lemma StatusSpelled(s: string, st: ItemStatus)
    ensures (if st == ItemStatus.INVALID then s == "INVALID" else ItemStatusName(s, st)) <==> s == ItemStatusToStr(st)
  {
  }

  lemma OrderStatusSpelled(s: string, st: OrderStatus)
    ensures (if st == OrderStatus.INVALID then s == "INVALID" else OrderStatusName(s, st))
            <==> s == OrderStatusToStr(st)
  {
  }

  lemma KindSpelled(s: string, k: MessageType)
    ensures KindName(s, k) <==> s == MessageTypeToStr(k) && k != MessageType.INVALID
  {
  }

  lemma ModeSpelled(s: string, m: ClientMode)
    ensures ModeName(s, m) <==> s == ClientModeToStr(m) && m != ClientMode.INVALID
  {
  }

  /** A sequence is known by its elements. */
  lemma TwoAre<T>(f: seq<T>, a: T, b: T)
    ensures f == [a, b] <==> |f| == 2 && f[0] == a && f[1] == b
  {
  }

  lemma ThreeAre<T>(f: seq<T>, a: T, b: T, c: T)
    ensures f == [a, b, c] <==> |f| == 3 && f[0] == a && f[1] == b && f[2] == c
  {
  }

  lemma FourAre<T>(f: seq<T>, a: T, b: T, c: T, d: T)
    ensures f == [a, b, c, d] <==> |f| == 4 && f[0] == a && f[1] == b && f[2] == c && f[3] == d
  {
  }

  lemma FiveAre<T>(f: seq<T>, a: T, b: T, c: T, d: T, e: T)
    ensures f == [a, b, c, d, e] <==>
            |f| == 5 && f[0] == a && f[1] == b && f[2] == c && f[3] == d && f[4] == e
  {
  }

  lemma ItemSpellingExactly(f: seq<string>, i: Item)
    ensures ItemSpelling(f, i) <==> f == ItemParts(i)
  {
    FiveAre(f, ToString(i.orderId), ToString(i.id), ItemStatusToStr(i.status), i.desc, ToString(i.qty));
    if |f| == 5 {
      ToStringExactly(f[0], i.orderId);
      ToStringExactly(f[1], i.id);
      ToStringExactly(f[4], i.qty);
      StatusSpelled(f[2], i.status);
    }
  }

  lemma ItemSpelledExactly(t: string, i: Item)
    ensures ItemSpelled(t, i) <==> t == EncodeItem(i)
  {
    EncodeItemJoins(i);
    ItemSpellingExactly(ItemParts(i), i);
    if f :| ItemSpelling(f, i) && t == Join(f, ':') {
      ItemSpellingExactly(f, i);
    }
  }

  lemma ItemsSpelledExactly(texts: seq<string>, items: seq<Item>)
    ensures (|texts| == |items| && forall i | 0 <= i < |texts| :: ItemSpelled(texts[i], items[i]))
            <==> texts == ItemTexts(items)
  {
    if |texts| == |items| {
      forall i | 0 <= i < |texts|
        ensures ItemSpelled(texts[i], items[i]) <==> texts[i] == ItemTexts(items)[i]
      {
        ItemSpelledExactly(texts[i], items[i]);
      }
    }
  }

  lemma OrderSpellingExactly(f: seq<string>, texts: seq<string>, o: Order)
    ensures OrderSpelling(f, texts, o) <==> o.items != [] && texts == ItemTexts(o.items) && f == OrderParts(o)
  {
    if o.items != [] {
      var list := Join(ItemTexts(o.items), ';');
      ItemsSpelledExactly(texts, o.items);
      ThreeAre(f, ToString(o.id), OrderStatusToStr(o.status), list);
      if |f| == 3 {
        ToStringExactly(f[0], o.id);
        OrderStatusSpelled(f[1], o.status);
      }
    }
  }

  /** Which text an order is written as, and that only an order without items has none. */
  lemma EncodeOrderExactly(o: Order, s: string)
    ensures EncodeOrder(Some(o)) == Ok(s) <==> OrderSpelled(s, o)
  {
    if o.items != [] {
      EncodeOrderJoins(o);
      OrderSpellingExactly(OrderParts(o), ItemTexts(o.items), o);
    }
    if f, texts :| OrderSpelling(f, texts, o) && s == Join(f, ',') {
      OrderSpellingExactly(f, texts, o);
    }
  }

  lemma SpellingExactly(f: seq<string>, m: Message)
    ensures MessageSpelling(f, m) <==> f == MessageParts(m) && Encode(m).Ok?
  {
    if f != [] {
      KindSpelled(f[0], m.kind);
      if m.kind in {LOGIN, QUIT, OK, ERROR} {
        TextSpelling(f, m);
      } else if m.kind in {ORDER_NEW, DISP_ORDER} {
        OrderMessageSpelling(f, m);
      } else if m.kind in {ITEM_UPDATE, DISP_ITEM_UPDATE} {
        ItemUpdateSpelling(f, m);
      } else {
        OrderUpdateSpelling(f, m);
      }
    }
  }

  lemma TextSpelling(f: seq<string>, m: Message)
    requires f != [] && m.kind in {LOGIN, QUIT, OK, ERROR}
    requires KindName(f[0], m.kind) <==> f[0] == MessageTypeToStr(m.kind)
    ensures MessageSpelling(f, m) <==> f == MessageParts(m) && Encode(m).Ok?
  {
    if |f| == 3 {
      ModeSpelled(f[1], m.mode);
    }
  }

  lemma OrderMessageEncodes(m: Message)
    requires m.kind in {ORDER_NEW, DISP_ORDER}
    ensures Encode(m).Ok? <==> m.order.Some? && EncodeOrder(m.order).Ok?
    ensures Encode(m).Ok? ==> MessageParts(m) == [MessageTypeToStr(m.kind), EncodeOrder(m.order).value]
  {
  }

  lemma OrderMessageSpelling(f: seq<string>, m: Message)
    requires f != [] && m.kind in {ORDER_NEW, DISP_ORDER}
    requires KindName(f[0], m.kind) <==> f[0] == MessageTypeToStr(m.kind)
    ensures MessageSpelling(f, m) <==> f == MessageParts(m) && Encode(m).Ok?
  {
    OrderMessageEncodes(m);
    TwoAre(f, MessageTypeToStr(m.kind), if EncodeOrder(m.order).Ok? then EncodeOrder(m.order).value else "");
    if |f| == 2 && m.order.Some? {
      EncodeOrderExactly(m.order.value, f[1]);
      assert EncodeOrder(m.order) == Ok(f[1]) <==> OrderSpelled(f[1], m.order.value);
    }
  }

  lemma ItemUpdateEncodes(m: Message)
    requires m.kind in {ITEM_UPDATE, DISP_ITEM_UPDATE}
    ensures Encode(m).Ok? <==> m.orderId >= 0 && m.itemId >= 0 && m.itemStatus != ItemStatus.INVALID
    ensures MessageParts(m) ==
            [MessageTypeToStr(m.kind), ToString(m.orderId), ToString(m.itemId), ItemStatusToStr(m.itemStatus)]
  {
  }

  lemma ItemUpdateSpelling(f: seq<string>, m: Message)
    requires f != [] && m.kind in {ITEM_UPDATE, DISP_ITEM_UPDATE}
    requires KindName(f[0], m.kind) <==> f[0] == MessageTypeToStr(m.kind)
    ensures MessageSpelling(f, m) <==> f == MessageParts(m) && Encode(m).Ok?
  {
    ItemUpdateEncodes(m);
    FourAre(f, MessageTypeToStr(m.kind), ToString(m.orderId), ToString(m.itemId), ItemStatusToStr(m.itemStatus));
    if |f| == 4 {
      ToStringExactly(f[1], m.orderId);
      ToStringExactly(f[2], m.itemId);
      StatusSpelled(f[3], m.itemStatus);
    }
  }

  lemma OrderUpdateSpelling(f: seq<string>, m: Message)
    requires f != [] && m.kind in {ORDER_UPDATE, DISP_ORDER_UPDATE, DISP_HEARTBEAT, MessageType.INVALID}
    requires KindName(f[0], m.kind) <==> f[0] == MessageTypeToStr(m.kind) && m.kind != MessageType.INVALID
    ensures MessageSpelling(f, m) <==> f == MessageParts(m) && Encode(m).Ok?
  {
    if |f| == 3 {
      ToStringExactly(f[1], m.orderId);
      OrderStatusSpelled(f[2], m.orderStatus);
    }
  }

  /** Which text a message is written as; the others are refused as invalid messages. */
  lemma EncodeExactly(m: Message, s: string)
    ensures Encode(m) == Ok(s) <==> exists f :: MessageSpelling(f, m) && s == Join(f, '|')
    ensures Encode(m).Err? ==> Encode(m) == Err(InvalidMessage)
  {
    SpellingExactly(MessageParts(m), m);
    if Encode(m).Ok? {
      EncodeJoins(m);
    }
    if f :| MessageSpelling(f, m) && s == Join(f, '|') {
      SpellingExactly(f, m);
    }
  }

  // ----- no text is shorter -----

  /** t is at least as long as the canonical text c, and just as long only if it is c. */
  ghost predicate NoShorter(t: string, c: string) {
    |c| <= |t| && (|c| == |t| ==> t == c)
  }

  lemma {:induction false} ValueBelow(d: string)
    requires AllDigits(d)
    ensures Value(d) < Pow10(|d|)
  {
    if d != "" {
      ValueBelow(d[..|d| - 1]);
    }
  }

  lemma DigitsNoShorter(d: string)
    requires d != "" && AllDigits(d) && Value(d) >= 1
    ensures NoShorter(d, Digits(Value(d)))
  {
    ValueBelow(d);
    DigitsExactly(Value(d), |d|);
    if d[0] == '0' {
      var rest := d[1..];
      assert d == ['0'] + rest;
      ValueLeadingZero(rest);
      assert rest != "";
      ValueBelow(rest);
      DigitsExactly(Value(d), |rest|);
    } else {
      DigitsOfValue(d);
    }
  }

  lemma NumberNoShorter(t: string, n: int)
    requires PositiveIntText(t, n)
    ensures NoShorter(t, ToString(n))
  {
    var i: nat, j: nat :| PositiveIntParts(t, n, i, j);
    DigitsNoShorter(t[j..]);
    assert j == 0 ==> t[j..] == t;
  }

  lemma {:induction false} JoinNoShorter(f: seq<string>, p: seq<string>, sep: char)
    requires |f| == |p| >= 1 && forall i | 0 <= i < |f| :: NoShorter(f[i], p[i])
    ensures NoShorter(Join(f, sep), Join(p, sep))
  {
    if |f| > 1 {
      JoinNoShorter(f[1..], p[1..], sep);
      assert NoShorter(f[0], p[0]);
    }
  }

  lemma ItemNoShorter(t: string, i: Item)
    requires ItemText(t, i)
    ensures NoShorter(t, EncodeItem(i))
  {
    var f :| Fields(t, f, ':') && ItemFields(f, i);
    NumberNoShorter(f[0], i.orderId);
    NumberNoShorter(f[1], i.id);
    NumberNoShorter(f[4], i.qty);
    StatusSpelled(f[2], i.status);
    JoinNoShorter(f, ItemParts(i), ':');
    EncodeItemJoins(i);
  }

  lemma ItemsNoShorter(texts: seq<string>, items: seq<Item>)
    requires items != [] && |texts| == |items| && forall i | 0 <= i < |texts| :: ItemText(texts[i], items[i])
    ensures NoShorter(Join(texts, ';'), Join(ItemTexts(items), ';'))
  {
    forall i | 0 <= i < |texts|
      ensures NoShorter(texts[i], ItemTexts(items)[i])
    {
      ItemNoShorter(texts[i], items[i]);
    }
    JoinNoShorter(texts, ItemTexts(items), ';');
  }

  lemma OrderNoShorter(t: string, o: Order)
    requires OrderText(t, o)
    ensures o.items != [] && EncodeOrder(Some(o)).Ok? && NoShorter(t, EncodeOrder(Some(o)).value)
  {
    var f, texts :| Fields(t, f, ',') && OrderFields(f, texts, o);
    ItemsNoShorter(texts, o.items);
    OrderPartsNoShorter(f, texts, o);
    JoinNoShorter(f, OrderParts(o), ',');
    EncodeOrderJoins(o);
  }

  lemma OrderPartsNoShorter(f: seq<string>, texts: seq<string>, o: Order)
    requires OrderFields(f, texts, o) && o.items != [] && NoShorter(f[2], Join(ItemTexts(o.items), ';'))
    ensures forall i | 0 <= i < 3 :: NoShorter(f[i], OrderParts(o)[i])
  {
    NumberNoShorter(f[0], o.id);
    OrderStatusSpelled(f[1], o.status);
  }

  lemma FieldsNoShorter(f: seq<string>, m: Message)
    requires MessageFields(f, m) && Encode(m).Ok?
    ensures |f| == |MessageParts(m)| && forall i | 0 <= i < |f| :: NoShorter(f[i], MessageParts(m)[i])
  {
    KindSpelled(f[0], m.kind);
    if m.kind in {LOGIN, QUIT, OK, ERROR, DISP_HEARTBEAT} {
      TextNoShorter(f, m);
    } else if m.kind in {ORDER_NEW, DISP_ORDER} {
      OrderNoShorter(f[1], m.order.value);
      PartsOfOrderMessage(m, EncodeOrder(m.order).value);
    } else {
      UpdateNoShorter(f, m);
    }
  }

  lemma TextNoShorter(f: seq<string>, m: Message)
    requires MessageFields(f, m) && m.kind in {LOGIN, QUIT, OK, ERROR, DISP_HEARTBEAT}
    ensures f == MessageParts(m)
  {
    KindSpelled(f[0], m.kind);
    if m.kind == LOGIN {
      ModeSpelled(f[1], m.mode);
    }
  }

  lemma UpdateNoShorter(f: seq<string>, m: Message)
    requires MessageFields(f, m) && m.kind in {ITEM_UPDATE, DISP_ITEM_UPDATE, ORDER_UPDATE, DISP_ORDER_UPDATE}
    ensures |f| == |MessageParts(m)| && forall i | 0 <= i < |f| :: NoShorter(f[i], MessageParts(m)[i])
  {
    KindSpelled(f[0], m.kind);
    NumberNoShorter(f[1], m.orderId);
    if m.kind in {ITEM_UPDATE, DISP_ITEM_UPDATE} {
      NumberNoShorter(f[2], m.itemId);
      StatusSpelled(f[3], m.itemStatus);
    } else {
      OrderStatusSpelled(f[2], m.orderStatus);
    }
  }

  /** Of all the texts that are read as a message, the one that encode writes is the only shortest. */
  lemma EncodeIsShortest(m: Message, s: string)
    requires Decode(s) == Ok(m) && Encode(m).Ok?
    ensures |Encode(m).value| <= |s|
    ensures |Encode(m).value| == |s| ==> Encode(m).value == s
  {
    DecodeExactly(s, m);
    var f :| Fields(s, f, '|') && MessageFields(f, m);
    FieldsNoShorter(f, m);
    JoinNoShorter(f, MessageParts(m), '|');
    EncodeJoins(m);
  }
}
