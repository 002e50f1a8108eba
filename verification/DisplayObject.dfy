/** The display program of src/display_main.cpp on its objects, proved against ServerSpec.Show. */
module DisplayObject {
  import opened Wrappers
  import opened Model
  import opened Objects
  import opened ServerSpec
  import opened ServerLaws

  class Display {
    var orders: map<int, OrderObject>
    ghost var view: Orders
    ghost var Repr: set<object>

    ghost predicate Stores(k: int)
      requires k in orders
      reads this, Repr
    {
      var o := orders[k];
      o in Repr && o.Repr <= Repr && this !in o.Repr && o.Valid() && k in view && o.Value() == view[k]
    }

    ghost predicate Valid()
      reads this, Repr
    {
      && this in Repr && view.Keys == orders.Keys
      && (forall k | k in orders :: Stores(k))
      && (forall j, k | j in orders && k in orders && j != k :: orders[j].Repr !! orders[k].Repr)
    }

    constructor ()
      ensures Valid() && fresh(Repr) && view == map[]
    {
      orders, view, Repr := map[], map[], {this};
    }

    /** handle_disp_order: shows a copy of the order. */
    method HandleOrder(msg: MessageObject) returns (r: Result<()>)
      requires Valid() && msg.Valid()
      modifies this`orders, this`view, this`Repr
      ensures Valid() && fresh(Repr - old(Repr))
      ensures if msg.order == null then r == Err(ProtocolError) && view == old(view)
              else r == Ok(()) && view == old(view)[msg.order.id := msg.order.Value()]
    {
      if msg.order == null {
        return Err(ProtocolError);
      }
      var copy := msg.order.Duplicate();
      Put(copy);
      return Ok(());
    }

    method Put(order: OrderObject)
      requires Valid() && order.Valid() && order.Repr !! Repr
      modifies this`orders, this`view, this`Repr
      ensures Valid() && Repr == old(Repr) + order.Repr && view == old(view)[order.id := order.Value()]
    {
      orders := orders[order.id := order];
      view := view[order.id := order.Value()];
      Repr := Repr + order.Repr;
    }

    /** handle_disp_item_update. */
    method HandleItemUpdate(msg: MessageObject) returns (r: Result<()>)
      requires Valid() && msg.Valid() && msg.kind == DISP_ITEM_UPDATE
      modifies Repr - {this}, this`view
      ensures Valid() && Repr == old(Repr)
      ensures Shows(old(view), old(msg.Value()), view, r)
    {
      if msg.orderId < 0 || msg.itemId < 0 || msg.itemStatus == ItemStatus.INVALID || msg.orderId !in orders {
        return Err(ProtocolError);
      }
      assert Stores(msg.orderId);
      var order := orders[msg.orderId];
      var found := order.FindItem(msg.itemId);
      if found.None? {
        return Err(ProtocolError);
      }
      SetItem(msg.orderId, found.value, msg.itemStatus);
      return Ok(());
    }

    method SetItem(k: int, i: nat, st: ItemStatus)
      requires Valid() && k in orders && i < |orders[k].items|
      modifies this`view, orders[k].Repr
      ensures Valid() && view == old(view)[k := SetItemStatus(old(view)[k], i, st)]
    {
      orders[k].SetItemStatus(i, st);
      view := view[k := orders[k].Value()];
    }

    /** handle_disp_order_update: a delivered order disappears. */
    method HandleOrderUpdate(msg: MessageObject) returns (r: Result<()>)
      requires Valid() && msg.Valid() && msg.kind == DISP_ORDER_UPDATE
      modifies Repr
      ensures Valid() && Repr == old(Repr)
      ensures Shows(old(view), old(msg.Value()), view, r)
    {
      if msg.orderId < 0 || msg.orderStatus == OrderStatus.INVALID || msg.orderId !in orders {
        return Err(ProtocolError);
      }
      var id, st := msg.orderId, msg.orderStatus;
      if st == OrderStatus.DELIVERED {
        orders := orders - {id};
        view := view - {id};
        return Ok(());
      }
      SetStatus(id, st);
      return Ok(());
    }

    method SetStatus(k: int, st: OrderStatus)
      requires Valid() && k in orders
      modifies this`view, orders[k].Repr
      ensures Valid() && view == old(view)[k := old(view)[k].(status := st)]
    {
      orders[k].status := st;
      view := view[k := orders[k].Value()];
    }

    /** One turn of the main loop. */
    method Handle(msg: MessageObject) returns (r: Result<()>)
      requires Valid() && msg.Valid() && msg.Repr !! Repr
      modifies Repr
      ensures Valid() && fresh(Repr - old(Repr))
      ensures Shows(old(view), old(msg.Value()), view, r)
      ensures Displays(old(view), old(msg.Value()), match r case Ok(_) => Ok(view) case Err(e) => Err(e))
    {
      ShowDisplays(view, msg.Value());
      match msg.kind {
        case DISP_ORDER => r := HandleOrder(msg);
        case DISP_ITEM_UPDATE => r := HandleItemUpdate(msg);
        case DISP_ORDER_UPDATE => r := HandleOrderUpdate(msg);
        case DISP_HEARTBEAT => r := Ok(());
        case _ => r := Err(ProtocolError);
      }
    }

    /** The main loop on a sequence of messages; a protocol error ends it. */
    method Loop(msgs: seq<MessageObject>, ghost values: seq<Message>) returns (r: Result<()>)
      requires Valid() && |values| == |msgs|
      requires forall i | 0 <= i < |msgs| :: msgs[i].Valid() && msgs[i].Repr !! Repr && msgs[i].Value() == values[i]
      modifies Repr
      ensures Valid()
      ensures var shown := Replay(old(view), values);
              if shown.Ok? then r == Ok(()) && view == shown.value else r == Err(shown.error)
    {
      ghost var start := view;
      for i := 0 to |msgs|
        invariant Valid() && fresh(Repr - old(Repr)) && Replay(start, values[..i]) == Ok(view)
      {
        r := Handle(msgs[i]);
        ReplayNext(start, values, i);
        if r.Err? {
          return;
        }
      }
      assert values[..|msgs|] == values;
      return Ok(());
    }
  }

  /** The outcome of one message: the new view, or an error and the old one. */
  ghost predicate Shows(view: Orders, m: Message, view': Orders, r: Result<()>) {
    match Show(view, m)
    case Ok(next) => r == Ok(()) && view' == next
    case Err(e) => r == Err(e) && view' == view
  }

  /** A protocol error in the middle is the outcome of the whole. */
  lemma ReplayNext(view: Orders, ms: seq<Message>, i: nat)
    requires i < |ms| && Replay(view, ms[..i]).Ok?
    ensures Replay(view, ms[..i + 1]) == Show(Replay(view, ms[..i]).value, ms[i])
    ensures Show(Replay(view, ms[..i]).value, ms[i]).Err? ==>
            Replay(view, ms) == Show(Replay(view, ms[..i]).value, ms[i])
  {
    assert ms[..i + 1][..i] == ms[..i];
    assert ms == ms[..i + 1] + ms[i + 1..];
    ReplayAppend(view, ms[..i + 1], ms[i + 1..]);
  }
}
