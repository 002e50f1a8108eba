/** encode_order and decode_order as the loops of src/wire.cpp, proved against the
    functions of module Wire. */
module WireLoops {
  import opened Wrappers
  import opened Model
  import opened Text
  import opened Wire
  import opened Grammar

  method EncodeOrderLoop(order: Option<Order>) returns (r: Result<string>)
    ensures r == EncodeOrder(order)
    ensures if order.None? || order.value.items == [] then r == Err(InvalidMessage)
            else r.Ok? && OrderSpelled(r.value, order.value)
  {
    if order.None? || |order.value.items| <= 0 {
      return Err(InvalidMessage);
    }
    var o := order.value;
    var out := AppendItems(ToString(o.id) + "," + OrderStatusToStr(o.status) + ",", o.items);
    EncodeOrderExactly(o, out);
    return Ok(out);
  }

  /** The loop over the items, with the separator before each but the first. */
  method AppendItems(head: string, items: seq<Item>) returns (out: string)
    requires items != []
    ensures out == head + Join(ItemTexts(items), ';')
  {
    out := head;
    ghost var texts := ItemTexts(items);
    for i := 0 to |items|
      invariant out == head + JoinUpTo(texts, i)
    {
      JoinUpToNext(head, texts, i, out);
      if i > 0 {
        out := out + ";";
      }
      out := out + EncodeItem(items[i]);
    }
    assert texts[..|items|] == texts;
  }

  function JoinUpTo(texts: seq<string>, i: nat): string
    requires i <= |texts|
  {
    if i == 0 then "" else Join(texts[..i], ';')
  }

  lemma JoinUpToNext(head: string, texts: seq<string>, i: nat, out: string)
    requires i < |texts| && out == head + JoinUpTo(texts, i)
    ensures (if i > 0 then out + ";" else out) + texts[i] == head + JoinUpTo(texts, i + 1)
  {
    assert texts[..i + 1] == texts[..i] + [texts[i]];
    if i > 0 {
      var before := JoinUpTo(texts, i);
      JoinSnoc(texts[..i], texts[i], ';');
      assert head + before + ";" + texts[i] == head + (before + [';'] + texts[i]);
    }
  }

  method DecodeOrderLoop(s: string) returns (r: Result<Order>)
    ensures r == DecodeOrder(s)
    ensures forall o :: r == Ok(o) <==> OrderText(s, o)
    ensures r.Err? ==> r == Err(InvalidMessage)
  {
    forall o
      ensures DecodeOrder(s) == Ok(o) <==> OrderText(s, o)
    {
      DecodeOrderExactly(s, o);
    }
    OrderFails(s);
    var fields := SplitLoop(s, ',');
    if |fields| != 3 {
      return Err(InvalidMessage);
    }
    var orderId :- ParsePositiveInt(fields[0]);
    var status := StrToOrderStatus(fields[1]);
    if status == OrderStatus.INVALID {
      return Err(InvalidMessage);
    }
    var itemFields := SplitLoop(fields[2], ';');
    var items := [];
    for i := 0 to |itemFields|
      invariant Traverse(DecodeItem, itemFields[..i]) == Ok(items)
    {
      TraverseNext(DecodeItem, itemFields, i);
      var item := DecodePartsOf(itemFields[i]);
      if item.Err? {
        return Err(item.error);
      }
      items := items + [item.value];
    }
    assert itemFields[..|itemFields|] == itemFields;
    return Ok(Order(orderId, status, items));
  }

  /** The body of the item loop in decode_order. */
  method DecodePartsOf(s: string) returns (r: Result<Item>)
    ensures r == DecodeItem(s)
  {
    var parts := SplitLoop(s, ':');
    if |parts| != 5 {
      return Err(InvalidMessage);
    }
    var itemOrderId :- ParsePositiveInt(parts[0]);
    var itemId :- ParsePositiveInt(parts[1]);
    var status := StrToItemStatus(parts[2]);
    if status == ItemStatus.INVALID {
      return Err(InvalidMessage);
    }
    var qty :- ParsePositiveInt(parts[4]);
    return Ok(Item(itemOrderId, itemId, status, parts[3], qty));
  }
}
