/** The objects of src/model.cpp and src/message.cpp, and what copying them does. Each object has a
    ghost footprint Repr; an order owns its items, and a message that is ready to be queued owns
    its order. */
module Objects {
  import opened Wrappers
  import opened Model
  import opened ServerSpec

  class ItemObject {
    var orderId: int
    const id: int
    var status: ItemStatus
    const desc: string
    const qty: int
    /** The position in the order that owns the item. */
    ghost var slot: int

    constructor (orderId: int, id: int, status: ItemStatus, desc: string, qty: int)
      ensures Value() == Item(orderId, id, status, desc, qty)
    {
      this.orderId, this.id, this.status, this.desc, this.qty := orderId, id, status, desc, qty;
    }

    function Value(): Item
      reads this
    {
      Item(orderId, id, status, desc, qty)
    }

    method Duplicate() returns (r: ItemObject)
      ensures fresh(r) && r.Value() == Value()
    {
      r := new ItemObject(orderId, id, status, desc, qty);
    }
  }

  class OrderObject {
    var id: int
    var status: OrderStatus
    var items: seq<ItemObject>
    ghost var values: seq<Item>
    ghost var Repr: set<object>

    /** The order owns its items, each of them once, and `values` is what they hold. */
    ghost predicate Valid()
      reads this, Repr
    {
      && this in Repr
      && |values| == |items|
      && forall i | 0 <= i < |items| :: items[i] in Repr && items[i].slot == i && items[i].Value() == values[i]
    }

    ghost function Value(): Order
      reads this
    {
      Order(id, status, values)
    }

    constructor (id: int, status: OrderStatus)
      ensures Valid() && fresh(Repr) && Value() == Order(id, status, [])
    {
      this.id, this.status, this.items := id, status, [];
      this.values, this.Repr := [], {this};
    }

    method AddItem(x: ItemObject)
      requires Valid() && x !in Repr
      modifies this`items, this`values, this`Repr, x`slot
      ensures Valid() && Repr == old(Repr) + {x}
      ensures Value() == old(Value()).(items := old(Value()).items + [old(x.Value())])
    {
      x.slot := |items|;
      items := items + [x];
      values := values + [x.Value()];
      Repr := Repr + {x};
    }

    /** Order::operator=: the items are appended to those already there, so that it copies the
        order exactly if there were none. */
    method Assign(rhs: OrderObject)
      requires Valid() && rhs.Valid()
      modifies this
      ensures Valid() && fresh(Repr - old(Repr))
      ensures rhs == this ==> Value() == old(Value())
      ensures rhs != this ==> Value() == Order(rhs.id, rhs.status, old(values) + rhs.values)
      ensures rhs != this ==> (Value() == rhs.Value() <==> old(values) == [])
    {
      if rhs != this {
        id := rhs.id;
        for k := 0 to |rhs.items|
          invariant Valid() && fresh(Repr - old(Repr))
          invariant id == rhs.id && values == old(values) + rhs.values[..k]
        {
          var x := rhs.items[k].Duplicate();
          AddItem(x);
        }
        status := rhs.status;
        assert |values| == |old(values)| + |rhs.values|;
      }
    }

    /** Copy construction assigns to a new order, which is the case where it is a true copy. */
    method Duplicate() returns (r: OrderObject)
      requires Valid()
      ensures r.Valid() && fresh(r.Repr) && r.Value() == Value()
    {
      r := new OrderObject(0, OrderStatus.INVALID);
      r.Assign(this);
    }

    method Read() returns (v: Order)
      requires Valid()
      ensures v == Value()
    {
      var read := [];
      for i := 0 to |items|
        invariant read == values[..i]
      {
        read := read + [items[i].Value()];
      }
      return Order(id, status, read);
    }

    method FindItem(itemId: int) returns (r: Option<nat>)
      requires Valid()
      ensures r == Model.FindItem(values, itemId)
    {
      for i := 0 to |items|
        invariant forall j | 0 <= j < i :: values[j].id != itemId
      {
        if items[i].id == itemId {
          return Some(i);
        }
      }
      return None;
    }

    /** Order::operator==. */
    method Equals(rhs: OrderObject) returns (r: bool)
      requires Valid() && rhs.Valid()
      ensures r <==> Value() == rhs.Value()
    {
      if id != rhs.id || status != rhs.status || |items| != |rhs.items| {
        return false;
      }
      for i := 0 to |items|
        invariant forall j | 0 <= j < i :: values[j] == rhs.values[j]
      {
        if items[i].Value() != rhs.items[i].Value() {
          return false;
        }
      }
      return true;
    }

    method AllItemsDone() returns (done: bool)
      requires Valid()
      ensures done <==> AllDone(values)
    {
      for i := 0 to |items|
        invariant forall j | 0 <= j < i :: values[j].status == ItemStatus.DONE
      {
        if items[i].status != ItemStatus.DONE {
          assert values[i].status != ItemStatus.DONE;
          return false;
        }
      }
      return true;
    }

    method SetItemStatus(i: nat, st: ItemStatus)
      requires Valid() && i < |items|
      modifies Repr
      ensures Valid() && Repr == old(Repr)
      ensures Value() == old(Value()).(items := old(values)[i := old(values)[i].(status := st)])
    {
      items[i].status := st;
      values := values[i := values[i].(status := st)];
    }

    /** The loop of process_new_order over the items. */
    method SetOrderIds(k: int)
      requires Valid()
      modifies Repr
      ensures Valid() && Repr == old(Repr) && id == old(id) && status == old(status)
      ensures |values| == |old(values)| && forall i | 0 <= i < |values| :: values[i] == old(values)[i].(orderId := k)
    {
      for i := 0 to |items|
        invariant Valid() && Repr == old(Repr) && id == old(id) && status == old(status) && items == old(items)
        invariant |values| == |old(values)|
        invariant forall j | 0 <= j < |values| ::
                  values[j] == if j < i then old(values)[j].(orderId := k) else old(values)[j]
      {
        items[i].orderId := k;
        values := values[i := values[i].(orderId := k)];
      }
    }
  }

  /** The order that decode_order builds, one new item after the other. */
  method BuildOrder(o: Order) returns (r: OrderObject)
    ensures r.Valid() && fresh(r.Repr) && r.Value() == o
  {
    r := new OrderObject(o.id, o.status);
    for k := 0 to |o.items|
      invariant r.Valid() && fresh(r.Repr) && r.Value() == Order(o.id, o.status, o.items[..k])
    {
      var i := o.items[k];
      var x := new ItemObject(i.orderId, i.id, i.status, i.desc, i.qty);
      r.AddItem(x);
    }
  }

  class MessageObject {
    var kind: MessageType
    var mode: ClientMode
    var str: string
    var order: OrderObject?
    var orderId: int
    var orderStatus: OrderStatus
    var itemId: int
    var itemStatus: ItemStatus
    ghost var Repr: set<object>

    /** The message owns its order, if it has one. */
    ghost predicate Valid()
      reads this, Repr
    {
      && this in Repr
      && (order != null ==> order in Repr && order.Repr <= Repr && this !in order.Repr && order.Valid())
    }

    ghost function Value(): Message
      reads this, order
    {
      Message(kind, mode, str, if order == null then None else Some(order.Value()), orderId, orderStatus, itemId,
          itemStatus)
    }

    /** The message as a value, for the codec. */
    method Read() returns (v: Message)
      requires Valid()
      ensures v == Value()
    {
      var o: Option<Order> := None;
      if order != null {
        var read := order.Read();
        o := Some(read);
      }
      return Message(kind, mode, str, o, orderId, orderStatus, itemId, itemStatus);
    }

    constructor (kind: MessageType)
      ensures Valid() && fresh(Repr) && Value() == PlainMessage(kind)
    {
      this.kind, mode, str, order := kind, ClientMode.INVALID, "", null;
      orderId, orderStatus, itemId, itemStatus := -1, OrderStatus.INVALID, -1, ItemStatus.INVALID;
      Repr := {this};
    }

    /** The message shares the order that it is given. */
    constructor WithOrder(kind: MessageType, order: OrderObject)
      ensures this.order == order && Value() == OrderMessage(kind, order.Value())
    {
      this.kind, mode, str, this.order := kind, ClientMode.INVALID, "", order;
      orderId, orderStatus, itemId, itemStatus := -1, OrderStatus.INVALID, -1, ItemStatus.INVALID;
    }

    /** The same, when nothing else refers to the order. */
    constructor WithOwnOrder(kind: MessageType, order: OrderObject)
      requires order.Valid()
      ensures Valid() && Repr == {this} + order.Repr && Value() == OrderMessage(kind, order.Value())
    {
      this.kind, mode, str, this.order := kind, ClientMode.INVALID, "", order;
      orderId, orderStatus, itemId, itemStatus := -1, OrderStatus.INVALID, -1, ItemStatus.INVALID;
      Repr := {this} + order.Repr;
    }

    constructor WithOrderStatus(kind: MessageType, orderId: int, orderStatus: OrderStatus)
      ensures order == null && Value() == StatusMessage(kind, orderId, orderStatus)
    {
      this.kind, mode, str, order := kind, ClientMode.INVALID, "", null;
      this.orderId, this.orderStatus, itemId, itemStatus := orderId, orderStatus, -1, ItemStatus.INVALID;
    }

    constructor WithItemStatus(kind: MessageType, orderId: int, itemId: int, itemStatus: ItemStatus)
      ensures order == null && Value() == ItemMessage(kind, orderId, itemId, itemStatus)
    {
      this.kind, mode, str, order := kind, ClientMode.INVALID, "", null;
      this.orderId, orderStatus, this.itemId, this.itemStatus := orderId, OrderStatus.INVALID, itemId, itemStatus;
    }

    /** Message::operator=: a deep copy. */
    method Assign(rhs: MessageObject)
      requires rhs.order != null ==> rhs.order.Valid() && this !in rhs.order.Repr
      requires Valid()
      modifies this
      ensures rhs != this ==> Valid() && fresh(Repr - {this}) && Value() == old(rhs.Value())
      ensures rhs == this ==> Valid() && Value() == old(Value())
    {
      if rhs != this {
        kind, mode, str := rhs.kind, rhs.mode, rhs.str;
        Repr := {this};
        if rhs.order != null {
          var copy := rhs.order.Duplicate();
          order := copy;
          Repr := Repr + copy.Repr;
        } else {
          order := null;
        }
        orderId, orderStatus, itemId, itemStatus := rhs.orderId, rhs.orderStatus, rhs.itemId, rhs.itemStatus;
      }
    }

    /** The copy has its own order and items: nothing reachable from it existed before. */
    method Duplicate() returns (r: MessageObject)
      requires order != null ==> order.Valid()
      ensures r.Valid() && fresh(r.Repr) && r.Value() == Value()
    {
      r := new MessageObject(MessageType.INVALID);
      r.Assign(this);
    }
  }

  /** Message::operator==. */
  method MessagesEqual(a: MessageObject, b: MessageObject) returns (r: bool)
    requires (a.order != null ==> a.order.Valid()) && (b.order != null ==> b.order.Valid())
    ensures r <==> OperatorEquals(a.Value(), b.Value())
  {
    if a.kind != b.kind || a.mode != b.mode || a.str != b.str {
      return false;
    }
    if a.order != null {
      if b.order == null {
        return false;
      }
      var same := a.order.Equals(b.order);
      if !same {
        return false;
      }
    }
    return a.orderId == b.orderId && a.orderStatus == b.orderStatus && a.itemId == b.itemId
        && a.itemStatus == b.itemStatus;
  }

  /** MessageQueue, used by one thread at a time; Machine.dfy has its steps interleaved. */
  class MessageQueue {
    var queue: seq<MessageObject>
    var avail: nat
    ghost var contents: seq<Message>
    ghost var Repr: set<object>

    /** The queued messages share nothing, and `contents` is what they say. */
    ghost predicate Valid()
      reads this, Repr
    {
      && this in Repr && avail == |queue|
      && |contents| == |queue|
      && (forall i | 0 <= i < |queue| :: Holds(queue[i], contents[i]))
      && (forall i, j | 0 <= i < j < |queue| :: queue[i] in Repr && queue[j] in Repr && queue[i].Repr !! queue[j].Repr)
    }

    ghost predicate Holds(m: MessageObject, v: Message)
      reads this, Repr
    {
      m in Repr && m.Repr <= Repr && this !in m.Repr && m.Valid() && m.Value() == v
    }

    constructor ()
      ensures Valid() && fresh(Repr) && contents == []
    {
      queue, avail, contents := [], 0, [];
      Repr := {this};
    }

    method Enqueue(msg: MessageObject)
      requires Valid() && msg.Valid() && msg.Repr !! Repr
      modifies this
      ensures Valid() && Repr == old(Repr) + msg.Repr
      ensures contents == old(contents) + [old(msg.Value())]
    {
      queue := queue + [msg];
      avail := avail + 1;
      contents := contents + [msg.Value()];
      Repr := Repr + msg.Repr;
    }

    /** Returns the oldest message, or null after a time-out; the semaphore keeps an empty deque
        from being read. */
    method Dequeue(timedOut: bool) returns (msg: MessageObject?)
      requires Valid()
      modifies this
      ensures Valid()
      ensures msg == null <==> timedOut || old(contents) == []
      ensures msg == null ==> contents == old(contents) && Repr == old(Repr)
      ensures msg != null ==> msg.Valid() && old(contents) == [msg.Value()] + contents
      ensures msg != null ==> Repr + msg.Repr == old(Repr) && Repr !! msg.Repr
    {
      if timedOut || avail == 0 {
        return null;
      }
      avail := avail - 1;
      msg := queue[0];
      queue := queue[1..];
      contents := contents[1..];
      Repr := Repr - msg.Repr;
    }
  }
}
