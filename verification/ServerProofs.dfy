/** What every run of server requests keeps: identities, the order lifecycle, wire-safe
    storage, and agreement between the stored orders and the replayed broadcasts. */
module ServerProofs {
  import opened Wrappers
  import opened Model
  import opened Text
  import opened WireProofs
  import opened ServerSpec

  // ----- invariants -----

  predicate AllNew(items: seq<Item>) {
    forall i | 0 <= i < |items| :: items[i].status == ItemStatus.NEW
  }

  /** DONE needs all items DONE; IN_PROGRESS needs one item started and one not finished. */
  ghost predicate WeakLifecycle(o: Order) {
    && (o.status == OrderStatus.DONE ==> AllDone(o.items))
    && (o.status == OrderStatus.IN_PROGRESS ==> !AllNew(o.items) && !AllDone(o.items))
  }

  /** The status as a function of the items. */
  function StatusOf(items: seq<Item>): OrderStatus {
    if AllNew(items) then OrderStatus.NEW
    else if AllDone(items) then OrderStatus.DONE
    else OrderStatus.IN_PROGRESS
  }

  /** An order stored under key k. */
  ghost predicate Stored(o: Order, k: int) {
    && o.id == k
    && (forall i | 0 <= i < |o.items| :: o.items[i].orderId == k)
    && o.status in {OrderStatus.NEW, OrderStatus.IN_PROGRESS, OrderStatus.DONE}
    && WireOrder(o)
    && WeakLifecycle(o)
  }

  ghost predicate Inv(s: State) {
    && FIRST_ID <= s.next <= INT_MAX
    && forall k | k in s.orders :: FIRST_ID <= k < s.next && Stored(s.orders[k], k)
  }

  /** A request as it comes out of the decoder, while the id counter is below INT_MAX. */
  predicate Admissible(s: State, r: Request) {
    r.NewOrder? ==> WireOrder(r.order) && s.next < INT_MAX
  }

  ghost predicate AdmissibleRun(s: State, rs: seq<Request>) {
    rs == [] || (AdmissibleRun(s, rs[..|rs| - 1]) && Admissible(Run(s, rs[..|rs| - 1]), rs[|rs| - 1]))
  }

  lemma AssignStored(o: Order, k: int)
    requires WireOrder(o) && FIRST_ID <= k <= INT_MAX
    ensures Stored(Assign(o, k), k)
  {
    var a := Assign(o, k);
    forall x | x in a.items
      ensures WireItem(x)
    {
      var i :| 0 <= i < |a.items| && a.items[i] == x;
      assert o.items[i] in o.items;
    }
  }

  /** An accepted item update keeps everything about an order but the status of one item. */
  lemma SetItemKeeps(o: Order, i: nat, st: ItemStatus)
    requires i < |o.items| && WireOrder(o) && st != ItemStatus.INVALID
    ensures WireOrder(SetItemStatus(o, i, st))
  {
    var o' := SetItemStatus(o, i, st);
    forall x | x in o'.items
      ensures WireItem(x)
    {
      var j :| 0 <= j < |o'.items| && o'.items[j] == x;
      assert o.items[j] in o.items;
    }
  }

  /** The order that an item update leaves behind, with the automatic transition applied. */
  function Updated(o: Order, i: nat, st: ItemStatus): Order
    requires i < |o.items|
  {
    var o' := SetItemStatus(o, i, st);
    if st == ItemStatus.IN_PROGRESS && o.status == OrderStatus.NEW then o'.(status := OrderStatus.IN_PROGRESS)
    else if st == ItemStatus.DONE && o.status == OrderStatus.IN_PROGRESS
        && AllDone(o'.items) then o'.(status := OrderStatus.DONE)
    else o'
  }

  lemma ItemUpdateOutcome(s: State, r: Request)
    requires r.ItemUpdate? && Apply(s, r).Ok?
    ensures r.orderId in s.orders
    ensures var o := s.orders[r.orderId];
            var found := FindItem(o.items, r.itemId);
            && found.Some? && Forward(o.items[found.value].status, r.itemStatus)
            && After(s, r) == s.(orders := s.orders[r.orderId := Updated(o, found.value, r.itemStatus)])
  {
  }

  lemma UpdatedStored(o: Order, k: int, i: nat, st: ItemStatus)
    requires Stored(o, k) && i < |o.items| && Forward(o.items[i].status, st)
    ensures Stored(Updated(o, i, st), k)
  {
    SetItemKeeps(o, i, st);
    var o' := SetItemStatus(o, i, st);
    assert o'.items[i].status == st;
    if o.status == OrderStatus.IN_PROGRESS && !AllDone(o'.items) {
      assert !AllNew(o'.items);
    }
  }

  lemma InvKept(s: State, r: Request)
    requires Inv(s) && Admissible(s, r)
    ensures Inv(After(s, r))
    ensures s.next <= After(s, r).next
  {
    if Apply(s, r).Ok? {
      match r {
        case NewOrder(o) => AssignStored(o, s.next);
        case ItemUpdate(orderId, itemId, st) =>
          ItemUpdateOutcome(s, r);
          var o := s.orders[orderId];
          UpdatedStored(o, orderId, FindItem(o.items, itemId).value, st);
        case OrderUpdate(orderId, st) =>
      }
    }
  }

  /** Identity and lifecycle over whole runs: after any requests, every stored order carries its
      key as its own id and its items' order id, the key was assigned and lies below the next
      one, the status agrees with the items, and the order can be sent. */
  lemma {:induction false} InvOfRun(rs: seq<Request>)
    requires AdmissibleRun(INITIAL, rs)
    ensures Inv(Run(INITIAL, rs))
  {
    if rs != [] {
      InvOfRun(rs[..|rs| - 1]);
      InvKept(Run(INITIAL, rs[..|rs| - 1]), rs[|rs| - 1]);
    }
  }

  // ----- the strong lifecycle -----

  predicate ArrivesNew(r: Request) {
    r.NewOrder? ==> AllNew(r.order.items)
  }

  ghost predicate StrongLifecycle(s: State) {
    forall k | k in s.orders :: s.orders[k].status == StatusOf(s.orders[k].items)
  }

  lemma UpdatedStrong(o: Order, i: nat, st: ItemStatus)
    requires i < |o.items| && Forward(o.items[i].status, st) && o.status == StatusOf(o.items)
    ensures Updated(o, i, st).status == StatusOf(Updated(o, i, st).items)
  {
    var o' := SetItemStatus(o, i, st);
    assert o'.items[i].status == st && !AllNew(o'.items);
    assert !AllDone(o.items);
  }

  /** If items arrive NEW, the order status is at all times a function of the item statuses. */
  lemma {:induction false} StrongLifecycleOfRun(rs: seq<Request>)
    requires forall i | 0 <= i < |rs| :: ArrivesNew(rs[i])
    ensures StrongLifecycle(Run(INITIAL, rs))
  {
    if rs != [] {
      var init, r := rs[..|rs| - 1], rs[|rs| - 1];
      StrongLifecycleOfRun(init);
      var s := Run(INITIAL, init);
      if Apply(s, r).Ok? && r.ItemUpdate? {
        ItemUpdateOutcome(s, r);
        var o := s.orders[r.orderId];
        UpdatedStrong(o, FindItem(o.items, r.itemId).value, r.itemStatus);
      }
    }
  }

  /** The assumption cannot be dropped: an order starts in agreement with its items exactly if
      they all arrive NEW. */
  lemma StrongLifecycleNeedsNew(s: State, o: Order)
    ensures var s' := After(s, NewOrder(o));
            s'.orders[s.next].status == StatusOf(s'.orders[s.next].items) <==> AllNew(o.items)
  {
    var a := Assign(o, s.next);
    assert |a.items| == |o.items|;
    assert forall i | 0 <= i < |o.items| :: a.items[i].status == o.items[i].status;
    if AllNew(a.items) {
      assert forall i | 0 <= i < |o.items| :: o.items[i].status == a.items[i].status;
    }
  }

  // ----- stored orders against replayed broadcasts -----

  lemma AllVisible(orders: Orders)
    requires forall k | k in orders :: orders[k].status != OrderStatus.DELIVERED
    ensures Visible(orders) == orders
  {
    assert forall k :: k in Visible(orders) <==> k in orders;
  }

  /** Replaying the first broadcast of a request does to the view what the request did to the
      stored orders, and the message can be sent. */
  lemma StartShows(s: State, r: Request)
    requires Inv(s) && Admissible(s, r) && Start(s, r).Ok?
    ensures Show(s.orders, Start(s, r).value.msg) == Ok(Visible(Start(s, r).value.state.orders))
    ensures Sendable(Start(s, r).value.msg)
  {
    AllVisible(s.orders);
    var s' := Start(s, r).value.state;
    match r {
      case NewOrder(o) =>
        AssignStored(o, s.next);
        AllVisible(s'.orders);
      case ItemUpdate(orderId, itemId, st) =>
        var i := FindItem(s.orders[orderId].items, itemId).value;
        assert s.orders[orderId].items[i] in s.orders[orderId].items;
        AllVisible(s'.orders);
      case OrderUpdate(orderId, st) =>
        assert Visible(s'.orders) == s.orders - {orderId};
    }
  }

  /** Likewise for the automatic order transition. */
  lemma FollowShows(s: State, r: Request)
    requires Inv(s) && Start(s, r).Ok? && Follow(Start(s, r).value.state, r).Some?
    ensures var s' := Start(s, r).value.state;
            var second := Follow(s', r).value;
            && Show(Visible(s'.orders), second.msg) == Ok(Visible(second.state.orders))
            && Sendable(second.msg)
  {
    var s' := Start(s, r).value.state;
    var second := Follow(s', r).value;
    AllVisible(s'.orders);
    AllVisible(second.state.orders);
  }

  /** After the last broadcast, only orders on their way out are erased. */
  lemma FinishHides(s: State, r: Request)
    requires Inv(s) && Start(s, r).Ok?
    ensures var s' := Start(s, r).value.state;
            && (Follow(s', r).None? ==> Finish(s', r).orders == Visible(s'.orders))
            && (Follow(s', r).Some? ==>
               Finish(Follow(s', r).value.state, r).orders == Visible(Follow(s', r).value.state.orders))
  {
    var s' := Start(s, r).value.state;
    if r.OrderUpdate? {
      assert forall k :: k in Visible(s'.orders) <==> k in s'.orders - {r.orderId};
    } else {
      AllVisible(s'.orders);
      if Follow(s', r).Some? {
        AllVisible(Follow(s', r).value.state.orders);
      }
    }
  }

  lemma ReplayTwo(view: Orders, a: Message, b: Message)
    requires Show(view, a).Ok?
    ensures Replay(view, [a, b]) == Show(Show(view, a).value, b)
  {
    ReplayOne(view, a);
    assert [a, b][..1] == [a];
  }

  lemma ApplyShows(s: State, r: Request)
    requires Inv(s) && Admissible(s, r)
    ensures Replay(s.orders, Broadcasts(s, r)) == Ok(After(s, r).orders)
  {
    if Start(s, r).Ok? {
      StartShows(s, r);
      FinishHides(s, r);
      var first := Start(s, r).value;
      var second := Follow(first.state, r);
      ReplayOne(s.orders, first.msg);
      if second.Some? {
        ReplayTwo(s.orders, first.msg, second.value.msg);
        FollowShows(s, r);
      }
    }
  }

  /** The broadcasts of a run, replayed from nothing, rebuild the stored orders without a
      protocol error. */
  lemma {:induction false} LogRebuilds(rs: seq<Request>)
    requires AdmissibleRun(INITIAL, rs)
    ensures Replay(map[], Log(INITIAL, rs)) == Ok(Run(INITIAL, rs).orders)
  {
    if rs != [] {
      var init, r := rs[..|rs| - 1], rs[|rs| - 1];
      LogRebuilds(init);
      InvOfRun(init);
      var s := Run(INITIAL, init);
      ApplyShows(s, r);
      ReplayAppend(map[], Log(INITIAL, init), Broadcasts(s, r));
    }
  }
}
