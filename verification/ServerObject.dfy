/** Class Server of src/server.cpp on its objects, proved against ServerSpec. A registered Client
    is represented by the message queue inside it. */
module ServerObject {
  import opened Wrappers
  import opened Model
  import opened Objects
  import opened ServerSpec
  import opened ServerLaws

  class Server {
    var orders: map<int, OrderObject>
    var displays: set<MessageQueue>
    var next: int
    ghost var state: State
    ghost var Repr: set<object>

    ghost predicate Stores(k: int)
      requires k in orders
      reads this, Repr
    {
      var o := orders[k];
      o in Repr && o.Repr <= Repr && this !in o.Repr && o.Valid() && k in state.orders && o.Value() == state.orders[k]
    }

    ghost predicate Serves(q: MessageQueue)
      reads this, Repr
    {
      q in Repr && q.Repr <= Repr && this !in q.Repr && q.Valid()
    }

    /** The stored orders and the queues of the displays share no objects. */
    ghost predicate Separate()
      reads this, Repr
      requires (forall k | k in orders :: orders[k] in Repr) && (forall q | q in displays :: q in Repr)
    {
      && (forall j, k | j in orders && k in orders && j != k :: orders[j].Repr !! orders[k].Repr)
      && (forall k, q | k in orders && q in displays :: orders[k].Repr !! q.Repr)
      && (forall p, q | p in displays && q in displays && p != q :: p.Repr !! q.Repr)
    }

    ghost predicate Valid()
      reads this, Repr
    {
      && this in Repr
      && state.next == next && state.orders.Keys == orders.Keys
      && (forall k | k in orders :: Stores(k))
      && (forall q | q in displays :: Serves(q))
      && Separate()
    }

    /** No aliasing: what a queued message reaches is no part of a stored order, nor of another
        queued message; so no change of a status reaches a queued message. */
    lemma NothingIsShared(q: MessageQueue, i: nat, k: int)
      requires Valid() && q in displays && i < |q.queue|
      ensures q.queue[i].Value() == q.contents[i]
      ensures k in orders ==> q.queue[i].Repr !! orders[k].Repr
      ensures q.queue[i].order != null ==> q.queue[i].order.Repr <= q.queue[i].Repr
      ensures forall j | 0 <= j < |q.queue| && j != i :: q.queue[i].Repr !! q.queue[j].Repr
      ensures forall p, j | p in displays && p != q && 0 <= j < |p.queue| :: q.queue[i].Repr !! p.queue[j].Repr
    {
      assert Serves(q) && q.Holds(q.queue[i], q.contents[i]);
      forall p, j | p in displays && p != q && 0 <= j < |p.queue|
        ensures q.queue[i].Repr !! p.queue[j].Repr
      {
        assert Serves(p) && p.Holds(p.queue[j], p.contents[j]);
      }
    }

    constructor ()
      ensures Valid() && fresh(Repr) && state == INITIAL && displays == {}
    {
      orders, displays, next := map[], {}, FIRST_ID;
      state, Repr := INITIAL, {this};
    }

    /** Server::broadcast: every display gets its own copy. */
    method Broadcast(msg: MessageObject)
      requires Valid() && (msg.order != null ==> msg.order.Valid())
      modifies this`Repr, displays
      ensures Valid() && fresh(Repr - old(Repr))
      ensures forall q | q in displays :: q.contents == old(q.contents) + [msg.Value()]
    {
      var rest := displays;
      while rest != {}
        invariant rest <= displays && Valid() && fresh(Repr - old(Repr))
        invariant forall q | q in displays - rest :: q.contents == old(q.contents) + [msg.Value()]
        invariant forall q | q in rest :: q.contents == old(q.contents)
      {
        var q :| q in rest;
        var copy := msg.Duplicate();
        Deliver(q, copy);
        rest := rest - {q};
      }
    }

    method Deliver(q: MessageQueue, copy: MessageObject)
      requires Valid() && q in displays && copy.Valid() && copy.Repr !! Repr
      modifies this`Repr, q
      ensures Valid() && Repr == old(Repr) + copy.Repr
      ensures q.contents == old(q.contents) + [copy.Value()]
    {
      q.Enqueue(copy);
      Repr := Repr + copy.Repr;
    }

    /** Server::register_display: the snapshot, in the order of the keys, in copies. */
    method RegisterDisplay(client: MessageQueue)
      requires Valid() && client !in displays && client.Valid() && client.Repr !! Repr
      modifies this`displays, this`Repr, client
      ensures Valid() && displays == old(displays) + {client} && fresh(Repr - old(Repr) - old(client.Repr))
      ensures client.contents == old(client.contents) + Snapshot(state.orders)
      ensures InKeyOrder(state.orders, client.contents[|old(client.contents)|..])
    {
      Enroll(client);
      SendSnapshot(client);
      SnapshotIsListed(state.orders);
      assert client.contents[|old(client.contents)|..] == Snapshot(state.orders);
    }

    method SendSnapshot(client: MessageQueue)
      requires Valid() && client in displays
      modifies this`Repr, client
      ensures Valid() && fresh(Repr - old(Repr))
      ensures client.contents == old(client.contents) + Snapshot(state.orders)
    {
      var keys := InOrder(orders.Keys);
      ghost var msgs := Snapshot(state.orders);
      SnapshotOf(state.orders, keys, msgs);
      SendOrders(client, keys, msgs);
    }

    method SendOrders(client: MessageQueue, keys: seq<int>, ghost msgs: seq<Message>)
      requires Valid() && client in displays && |msgs| == |keys|
      requires forall i | 0 <= i < |keys| ::
               keys[i] in state.orders && msgs[i] == OrderMessage(DISP_ORDER, state.orders[keys[i]])
      modifies this`Repr, client
      ensures Valid() && fresh(Repr - old(Repr)) && client.contents == old(client.contents) + msgs
    {
      ghost var before := client.contents;
      for i := 0 to |keys|
        invariant Valid() && fresh(Repr - old(Repr)) && client.contents == before + msgs[..i]
      {
        SendOrder(client, keys[i]);
        TakeNext(before, msgs, i);
      }
    }

    method Enroll(client: MessageQueue)
      requires Valid() && client !in displays && client.Valid() && client.Repr !! Repr
      modifies this`displays, this`Repr
      ensures Valid() && displays == old(displays) + {client} && Repr == old(Repr) + client.Repr
    {
      displays := displays + {client};
      Repr := Repr + client.Repr;
    }

    method SendOrder(client: MessageQueue, k: int)
      requires Valid() && client in displays && k in orders
      modifies this`Repr, client
      ensures Valid() && fresh(Repr - old(Repr))
      ensures client.contents == old(client.contents) + [OrderMessage(DISP_ORDER, state.orders[k])]
    {
      assert Stores(k);
      var copy := orders[k].Duplicate();
      var msg := new MessageObject.WithOwnOrder(DISP_ORDER, copy);
      Deliver(client, msg);
    }

    /** Server::unregister_display. */
    method UnregisterDisplay(client: MessageQueue)
      requires Valid()
      modifies this`displays
      ensures Valid() && displays == old(displays) - {client}
    {
      displays := displays - {client};
    }

    /** MessageQueue::dequeue on the queue of a registered display. The message, which is encoded
        outside all locks, then shares nothing with the stored orders and the queues. */
    method TakeMessage(client: MessageQueue, timedOut: bool) returns (v: Option<MessageObject>)
      requires Valid() && client in displays
      modifies client
      ensures Valid()
      ensures v.None? <==> timedOut || old(client.contents) == []
      ensures if v.None? then client.contents == old(client.contents)
              else v.value.Valid() && old(client.contents) == [v.value.Value()] + client.contents
      ensures v.Some? ==> (forall k | k in orders :: v.value.Repr !! orders[k].Repr)
                          && forall q | q in displays :: v.value.Repr !! q.Repr
    {
      assert Serves(client);
      var msg := client.Dequeue(timedOut);
      return if msg == null then None else Some(msg);
    }

    /** Server::process_new_order. The order comes from a message that nothing else refers to. */
    method ProcessNewOrder(order: OrderObject) returns (id: int)
      requires Valid() && order.Valid() && order.Repr !! Repr
      modifies this`orders, this`next, this`state, this`Repr, order.Repr, displays
      ensures Valid() && id == old(next) && fresh(Repr - old(Repr) - old(order.Repr))
      ensures var request := NewOrder(old(order.Value()));
              && state == After(old(state), request)
              && (forall q | q in displays :: q.contents == old(q.contents) + Broadcasts(old(state), request))
              && Lawful(old(state), request, state, Broadcasts(old(state), request), Ok(()))
    {
      RequestIsLawful(state, NewOrder(order.Value()));
      id := StoreNew(order);
      var msg := new MessageObject.WithOrder(DISP_ORDER, order);
      Broadcast(msg);
    }

    method StoreNew(order: OrderObject) returns (id: int)
      requires Valid() && order.Valid() && order.Repr !! Repr
      modifies this`orders, this`next, this`state, this`Repr, order.Repr
      ensures Valid() && id == old(next) && Repr == old(Repr) + old(order.Repr)
      ensures order.Valid() && order.Value() == Assign(old(order.Value()), id)
      ensures state == State(old(state).orders[id := order.Value()], id + 1)
    {
      id := next;
      Number(order, id);
      Insert(order);
    }

    /** Gives the order its id, in the order and in its items, and status NEW. */
    static method Number(order: OrderObject, id: int)
      requires order.Valid()
      modifies order.Repr
      ensures order.Valid() && order.Repr == old(order.Repr) && order.Value() == Assign(old(order.Value()), id)
    {
      order.id := id;
      order.SetOrderIds(id);
      order.status := OrderStatus.NEW;
      assert order.values == Assign(old(order.Value()), id).items;
    }

    method Insert(order: OrderObject)
      requires Valid() && order.Valid() && order.Repr !! Repr
      modifies this`orders, this`next, this`state, this`Repr
      ensures Valid() && Repr == old(Repr) + order.Repr
      ensures state == State(old(state).orders[old(next) := order.Value()], old(next) + 1)
    {
      orders := orders[next := order];
      state := State(state.orders[next := order.Value()], next + 1);
      next := next + 1;
      Repr := Repr + order.Repr;
    }

    /** The checks of process_item_update: the place of the item that may be moved, or the reason why not. */
    method FindMovable(orderId: int, itemId: int, itemStatus: ItemStatus) returns (r: Result<nat>)
      requires Valid()
      ensures var first := Start(state, ItemUpdate(orderId, itemId, itemStatus));
              match r
              case Err(e) => first == Err(e)
              case Ok(i) =>
                && orderId in orders && i < |orders[orderId].items| && first.Ok?
                && FindItem(state.orders[orderId].items, itemId) == Some(i)
    {
      if orderId !in orders {
        return Err(SemanticError("order not found"));
      }
      var order := orders[orderId];
      assert Stores(orderId);
      var found := order.FindItem(itemId);
      if found.None? {
        return Err(SemanticError("item not found"));
      }
      if !Forward(order.items[found.value].status, itemStatus) {
        return Err(SemanticError("invalid item status transition"));
      }
      return Ok(found.value);
    }

    /** Server::process_item_update. */
    method ProcessItemUpdate(orderId: int, itemId: int, itemStatus: ItemStatus) returns (r: Result<()>)
      requires Valid()
      modifies Repr
      ensures Valid() && displays == old(displays) && fresh(Repr - old(Repr))
      ensures var request := ItemUpdate(orderId, itemId, itemStatus);
              && state == After(old(state), request)
              && (forall q | q in displays :: q.contents == old(q.contents) + Broadcasts(old(state), request))
              && r == Verdict(old(state), request)
              && Lawful(old(state), request, state, Broadcasts(old(state), request), r)
    {
      var found := FindMovable(orderId, itemId, itemStatus);
      if found.Err? {
        r := Err(found.error);
      } else {
        MoveItem(orderId, itemId, found.value, itemStatus);
        r := Ok(());
      }
      RequestIsLawful(old(state), ItemUpdate(orderId, itemId, itemStatus));
    }

    /** The changes of an update that is accepted, each with its broadcast. */
    method MoveItem(k: int, itemId: int, i: nat, st: ItemStatus)
      requires Valid() && k in orders && i < |orders[k].items|
      requires FindItem(state.orders[k].items, itemId) == Some(i) && Start(state, ItemUpdate(k, itemId, st)).Ok?
      modifies Repr
      ensures Valid() && displays == old(displays) && fresh(Repr - old(Repr))
      ensures Apply(old(state), ItemUpdate(k, itemId, st)).Ok?
      ensures var outcome := Apply(old(state), ItemUpdate(k, itemId, st)).value;
              state == outcome.state && forall q | q in displays :: q.contents == old(q.contents) + outcome.msgs
    {
      ChangeItemStatus(k, itemId, i, st);
      Advance(k, itemId, st);
    }

    /** Sets the status of one item and broadcasts that. */
    method ChangeItemStatus(k: int, itemId: int, i: nat, st: ItemStatus)
      requires Valid() && k in orders && i < |orders[k].items|
      modifies this`state, this`Repr, orders[k].Repr, displays
      ensures Valid() && fresh(Repr - old(Repr))
      ensures state == old(state).(orders := old(state).orders[k := SetItemStatus(old(state).orders[k], i, st)])
      ensures forall q | q in displays :: q.contents == old(q.contents) + [ItemMessage(DISP_ITEM_UPDATE, k, itemId, st)]
    {
      StoreItemStatus(k, i, st);
      var msg := new MessageObject.WithItemStatus(DISP_ITEM_UPDATE, k, itemId, st);
      Broadcast(msg);
    }

    method StoreItemStatus(k: int, i: nat, st: ItemStatus)
      requires Valid() && k in orders && i < |orders[k].items|
      modifies this`state, orders[k].Repr
      ensures Valid()
      ensures state == old(state).(orders := old(state).orders[k := SetItemStatus(old(state).orders[k], i, st)])
    {
      orders[k].SetItemStatus(i, st);
      state := state.(orders := state.orders[k := orders[k].Value()]);
    }

    /** The automatic transition of the order. */
    method Advance(k: int, itemId: int, st: ItemStatus)
      requires Valid() && k in orders
      modifies this`state, this`Repr, orders[k].Repr, displays
      ensures Valid() && fresh(Repr - old(Repr))
      ensures var follow := Follow(old(state), ItemUpdate(k, itemId, st));
              && state == (if follow.Some? then follow.value.state else old(state))
              && forall q | q in displays ::
                 q.contents == old(q.contents) + if follow.Some? then [follow.value.msg] else []
    {
      assert Stores(k);
      if st == ItemStatus.IN_PROGRESS && orders[k].status == OrderStatus.NEW {
        ChangeOrderStatus(k, OrderStatus.IN_PROGRESS);
      } else if st == ItemStatus.DONE && orders[k].status == OrderStatus.IN_PROGRESS {
        var done := orders[k].AllItemsDone();
        if done {
          ChangeOrderStatus(k, OrderStatus.DONE);
        }
      }
    }

    /** Sets the status of an order and broadcasts that. */
    method ChangeOrderStatus(k: int, st: OrderStatus)
      requires Valid() && k in orders
      modifies this`state, this`Repr, orders[k].Repr, displays
      ensures Valid() && fresh(Repr - old(Repr))
      ensures state == old(state).(orders := old(state).orders[k := old(state).orders[k].(status := st)])
      ensures forall q | q in displays :: q.contents == old(q.contents) + [StatusMessage(DISP_ORDER_UPDATE, k, st)]
    {
      StoreOrderStatus(k, st);
      var msg := new MessageObject.WithOrderStatus(DISP_ORDER_UPDATE, k, st);
      Broadcast(msg);
    }

    method StoreOrderStatus(k: int, st: OrderStatus)
      requires Valid() && k in orders
      modifies this`state, orders[k].Repr
      ensures Valid()
      ensures state == old(state).(orders := old(state).orders[k := old(state).orders[k].(status := st)])
    {
      orders[k].status := st;
      state := state.(orders := state.orders[k := orders[k].Value()]);
    }

    /** Server::process_order_update. */
    method ProcessOrderUpdate(orderId: int, orderStatus: OrderStatus) returns (r: Result<()>)
      requires Valid()
      modifies Repr
      ensures Valid() && displays == old(displays) && fresh(Repr - old(Repr))
      ensures var request := OrderUpdate(orderId, orderStatus);
              && state == After(old(state), request)
              && (forall q | q in displays :: q.contents == old(q.contents) + Broadcasts(old(state), request))
              && r == Verdict(old(state), request)
              && Lawful(old(state), request, state, Broadcasts(old(state), request), r)
    {
      RequestIsLawful(state, OrderUpdate(orderId, orderStatus));
      if orderId !in orders {
        return Err(SemanticError("order not found"));
      }
      assert Stores(orderId);
      if orders[orderId].status != OrderStatus.DONE || orderStatus != OrderStatus.DELIVERED {
        return Err(SemanticError("invalid order status transition"));
      }
      ChangeOrderStatus(orderId, OrderStatus.DELIVERED);
      Erase(orderId);
      return Ok(());
    }

    method Erase(k: int)
      requires Valid() && k in orders
      modifies this`orders, this`state
      ensures Valid() && state == old(state).(orders := old(state).orders - {k})
    {
      orders := orders - {k};
      state := state.(orders := state.orders - {k});
    }
  }

  lemma TakeNext<T>(a: seq<T>, b: seq<T>, i: nat)
    requires i < |b|
    ensures (a + b[..i]) + [b[i]] == a + b[..i + 1]
  {
  }

  /** The iteration order of a std::map: its keys from the lowest to the highest. */
  method InOrder(keys: set<int>) returns (r: seq<int>)
    ensures Increasing(r) && forall k :: k in r <==> k in keys
  {
    r := [];
    var rest := keys;
    while rest != {}
      invariant rest <= keys && Increasing(r)
      invariant forall k | k in r :: k in keys
      invariant forall k | k in keys :: k in r || k in rest
      invariant forall j, k | j in r && k in rest :: j < k
    {
      LeastExists(rest);
      var k :| k in rest && forall j | j in rest :: k <= j;
      IncreasingThen(r, k);
      r := r + [k];
      rest := rest - {k};
    }
  }

  lemma LeastExists(keys: set<int>)
    ensures keys == {} || exists k :: k in keys && forall j | j in keys :: k <= j
  {
    if x :| x in keys {
      MinKeyFrom(keys, x);
      var k :| IsMinKey(keys, k);
      assert k in keys && forall j | j in keys :: k <= j;
    } else {
      var none: set<int> := {};
      assert forall k :: k in keys <==> k in none;
      assert keys == none;
    }
  }

  lemma IncreasingThen(r: seq<int>, k: int)
    requires Increasing(r) && forall j | j in r :: j < k
    ensures Increasing(r + [k]) && forall j :: j in r + [k] <==> j in r || j == k
  {
    forall i, j | 0 <= i < j < |r + [k]|
      ensures (r + [k])[i] < (r + [k])[j]
    {
      assert (r + [k])[i] in r;
    }
  }

  /** Orders sent by increasing key make up the snapshot. */
  lemma SnapshotOf(orders: Orders, keys: seq<int>, snapshot: seq<Message>)
    requires Increasing(keys) && (forall k :: k in keys <==> k in orders) && snapshot == Snapshot(orders)
    ensures |snapshot| == |keys|
    ensures forall i | 0 <= i < |keys| ::
            keys[i] in orders && snapshot[i] == OrderMessage(DISP_ORDER, orders[keys[i]])
  {
    forall i | 0 <= i < |keys|
      ensures keys[i] in orders
    {
      assert keys[i] in keys;
    }
    var msgs := seq(|keys|, i requires 0 <= i < |keys| => OrderMessage(DISP_ORDER, orders[keys[i]]));
    assert Lists(orders, keys, msgs);
    SnapshotExactly(orders, msgs);
  }
}
