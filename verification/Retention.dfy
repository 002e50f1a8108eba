/** When a display is kept: exactly as long as what it is sent fits, and always if no order can
    outgrow a frame. */
module Retention {
  import opened Wrappers
  import opened Model
  import opened Text
  import opened Wire
  import opened ServerSpec
  import opened ServerProofs
  import opened Streams
  import opened Machine
  import opened MachineLocks
  import opened MachineLog
  import opened MachineFlow
  import opened MachineLinks
  import opened MachineLeaving
  import opened MachineRuns
  import opened MachineSnapshots
  import opened Capacity
  import opened Growth

  // ----- messages -----

  predicate Short(m: Message) {
    m.kind == DISP_ORDER ==> m.order.Some? && Roomy(m.order.value)
  }

  lemma StatusNamesAreShort(i: ItemStatus, o: OrderStatus)
    ensures |ItemStatusToStr(i)| <= 11 && |OrderStatusToStr(o)| <= 11
  {
  }

  /** Updates that name an item or an order are always short. */
  lemma ItemUpdateLength(k: nat, i: nat, st: ItemStatus)
    requires 1 <= k <= INT_MAX && 1 <= i <= INT_MAX
    ensures |TextOf(ItemMessage(DISP_ITEM_UPDATE, k, i, st))| <= 60
  {
    IdDigits(k);
    IdDigits(i);
    StatusNamesAreShort(st, OrderStatus.NEW);
  }

  lemma OrderUpdateLength(k: nat, st: OrderStatus)
    requires 1 <= k <= INT_MAX
    ensures |TextOf(StatusMessage(DISP_ORDER_UPDATE, k, st))| <= 60
  {
    IdDigits(k);
    StatusNamesAreShort(ItemStatus.NEW, st);
  }

  lemma ShortFits(m: Message)
    requires Deliverable(m) && Short(m)
    ensures Fits(m)
  {
    if m.kind == DISP_ORDER {
      OrderFits(m.order.value);
    } else if m.kind == DISP_ITEM_UPDATE {
      ItemUpdateLength(m.orderId, m.itemId, m.itemStatus);
    } else {
      OrderUpdateLength(m.orderId, m.orderStatus);
    }
  }

  // ----- runs of roomy orders -----

  /** Every new order is roomy under the id that it gets. */
  ghost predicate RoomyRun(rs: seq<Request>) {
    forall i | 0 <= i < |rs| && rs[i].NewOrder? :: Roomy(Assign(rs[i].order, Run(INITIAL, rs[..i]).next))
  }

  lemma RoomyPrefix(rs: seq<Request>, n: nat)
    requires RoomyRun(rs) && n <= |rs|
    ensures RoomyRun(rs[..n])
  {
    forall i | 0 <= i < n && rs[..n][i].NewOrder?
      ensures Roomy(Assign(rs[..n][i].order, Run(INITIAL, rs[..n][..i]).next))
    {
      assert rs[..n][..i] == rs[..i];
      assert rs[i].NewOrder?;
    }
  }

  lemma {:induction false} AdmissiblePrefix(rs: seq<Request>, n: nat)
    requires AdmissibleRun(INITIAL, rs) && n <= |rs|
    ensures AdmissibleRun(INITIAL, rs[..n])
  {
    if n < |rs| {
      AdmissiblePrefix(rs[..|rs| - 1], n);
      assert rs[..|rs| - 1][..n] == rs[..n];
    } else {
      assert rs[..n] == rs;
    }
  }

  ghost predicate RoomyOrders(orders: Orders) {
    forall k | k in orders :: Roomy(orders[k])
  }

  lemma RequestKeepsRoomy(s: State, r: Request)
    requires Inv(s) && Admissible(s, r) && RoomyOrders(s.orders)
    requires r.NewOrder? ==> Roomy(Assign(r.order, s.next))
    ensures RoomyOrders(After(s, r).orders)
  {
    forall k | k in After(s, r).orders
      ensures Roomy(After(s, r).orders[k])
    {
      if k in s.orders {
        RequestShortens(s, r, k);
        NoLonger(s.orders[k], After(s, r).orders[k]);
      } else {
        NewlyStored(s, r, k);
      }
    }
  }

  lemma NoLonger(a: Order, b: Order)
    requires Roomy(a) && Longest(b) <= Longest(a)
    ensures Roomy(b)
  {
  }

  lemma NewlyStored(s: State, r: Request, k: int)
    requires k in After(s, r).orders && k !in s.orders
    ensures r.NewOrder? && k == s.next && After(s, r).orders[k] == Assign(r.order, s.next)
  {
  }

  lemma {:induction false} RunIsRoomy(rs: seq<Request>)
    requires AdmissibleRun(INITIAL, rs) && RoomyRun(rs)
    ensures RoomyOrders(Run(INITIAL, rs).orders)
  {
    if rs != [] {
      var n := |rs| - 1;
      RoomyPrefix(rs, n);
      RunIsRoomy(rs[..n]);
      InvOfRun(rs[..n]);
      RequestKeepsRoomy(Run(INITIAL, rs[..n]), rs[n]);
    }
  }

  lemma BroadcastsAreShort(s: State, r: Request, m: Message)
    requires Start(s, r).Ok? && (r.NewOrder? ==> Roomy(Assign(r.order, s.next)))
    requires || m == Start(s, r).value.msg
             || (Follow(Start(s, r).value.state, r).Some? && m == Follow(Start(s, r).value.state, r).value.msg)
    ensures Short(m)
  {
  }

  lemma {:induction false} RunIsShort(rs: seq<Request>)
    requires RoomyRun(rs)
    ensures All(Short, Log(INITIAL, rs))
  {
    if rs != [] {
      var n := |rs| - 1;
      var init, r := rs[..n], rs[n];
      RoomyPrefix(rs, n);
      RunIsShort(init);
      var s := Run(INITIAL, init);
      forall m | m in Broadcasts(s, r)
        ensures Short(m)
      {
        BroadcastsAreShort(s, r, m);
      }
      AllAppend(Short, Log(INITIAL, init), Broadcasts(s, r));
    }
  }

  lemma LogIsShort(sh: Shared, progress: Option<(Request, Stage)>)
    requires Linear(sh, progress) && RoomyRun(sh.served)
    ensures All(Short, sh.log)
  {
    if progress.None? {
      RunIsShort(sh.served);
    } else {
      var n := |sh.served| - 1;
      RoomyPrefix(sh.served, n);
      RunIsShort(sh.served[..n]);
      var s0 := Run(INITIAL, sh.served[..n]);
      SaidIsShort(s0, progress.value.0, progress.value.1);
      AllAppend(Short, Log(INITIAL, sh.served[..n]), SaidBy(s0, progress.value.0, progress.value.1));
    }
  }

  lemma SaidIsShort(s: State, r: Request, stage: Stage)
    requires Start(s, r).Ok? && (r.NewOrder? ==> Roomy(Assign(r.order, s.next)))
    ensures All(Short, SaidBy(s, r, stage))
  {
    forall m | m in SaidBy(s, r, stage)
      ensures Short(m)
    {
      BroadcastsAreShort(s, r, m);
    }
  }

  lemma RoomyIsShort(o: Order)
    requires Roomy(o)
    ensures All(Short, [OrderMessage(DISP_ORDER, o)])
  {
  }

  lemma {:induction false} SnapshotIsShort(orders: Orders)
    requires RoomyOrders(orders)
    ensures All(Short, Snapshot(orders))
    decreases orders.Keys
  {
    if orders != map[] {
      var k := MinKey(orders);
      var rest := orders - {k};
      RoomyIsShort(orders[k]);
      assert RoomyOrders(rest);
      SnapshotIsShort(rest);
      AllAppend(Short, [OrderMessage(DISP_ORDER, orders[k])], Snapshot(rest));
    }
  }

  // ----- snapshots -----

  lemma SnapshotOfRoomyRun(served: seq<Request>, feed: Feed)
    requires AdmissibleRun(INITIAL, served) && RoomyRun(served) && FromRun(served, feed)
    ensures All(Short, feed.snapshot)
  {
    var j: nat :| TakenAt(served, feed, j);
    RoomyPrefix(served, j);
    AdmissiblePrefix(served, j);
    RunIsRoomy(served[..j]);
    SnapshotIsShort(Run(INITIAL, served[..j]).orders);
  }

  // ----- displays -----

  /** What the client has taken from its queue and is past sending. */
  function Tried(c: Client): seq<Message>
    requires |Hand(c.pc)| <= |c.feed.taken|
  {
    c.feed.taken[..|c.feed.taken| - |Hand(c.pc)|]
  }

  lemma {:induction false} UpdatesFit(sent: seq<Message>)
    requires forall i | 0 <= i < |sent| :: Fits(sent[i])
    ensures forall i | 0 <= i < |Updates(sent)| :: Fits(Updates(sent)[i])
  {
    if sent != [] {
      UpdatesFit(sent[..|sent| - 1]);
    }
  }

  lemma SentFit(link: Link)
    requires LinkOk(link)
    ensures forall i | 0 <= i < |link.sent| :: Fits(link.sent[i])
  {
  }

  lemma KeptBy(c: Client)
    requires LinkOk(c.link) && HandsOk(c) && LeftOk(c) && c.feed.joined && !c.link.broken
    ensures |Hand(c.pc)| <= |c.feed.taken|
    ensures InLoop(c.pc) <==> forall i | 0 <= i < |Tried(c)| :: Fits(Tried(c)[i])
  {
    if InLoop(c.pc) {
      SentFit(c.link);
      UpdatesFit(c.link.sent);
      assert Tried(c) == Updates(c.link.sent);
    } else {
      var n := |Updates(c.link.sent)|;
      assert Hand(c.pc) == [] && Tried(c)[n] == c.feed.taken[n];
    }
  }

  /** When a display is kept: while its connection holds, a display that has been registered is in
      its loop exactly if every message that it has tried to pass on fits a frame. */
  lemma KeptExactly(s: Sys, c: Tid)
    requires Reached(s) && c in s.clients && s.clients[c].feed.joined && !s.clients[c].link.broken
    ensures |Hand(s.clients[c].pc)| <= |s.clients[c].feed.taken|
    ensures InLoop(s.clients[c].pc) <==> forall i | 0 <= i < |Tried(s.clients[c])| :: Fits(Tried(s.clients[c])[i])
    ensures InLoop(s.clients[c].pc) ==> c in s.shared.displays
  {
    ReachedKeeps(s);
    LinkedClient(s, c);
    KeptBy(s.clients[c]);
    InLoopIsRegistered(s, c);
  }

  lemma LinkedClient(s: Sys, c: Tid)
    requires Linked(s) && LeftForCause(s) && c in s.clients
    ensures LinkOk(s.clients[c].link) && HandsOk(s.clients[c]) && LeftOk(s.clients[c])
  {
    assert ClientOk(s.clients[c]);
  }

  lemma InLoopIsRegistered(s: Sys, c: Tid)
    requires Synchronized(s) && c in s.clients
    ensures InLoop(s.clients[c].pc) ==> c in s.shared.displays
  {
    assert InLoop(s.clients[c].pc) ==> Enrolled(s.clients[c].pc);
  }

  /** A display never gets past a message that does not fit: one that joins while a stored order has
      outgrown the frame is not in its loop once it has tried to pass that order on. */
  lemma NeverPastLongMessages(s: Sys, c: Tid, i: nat)
    requires Reached(s) && c in s.clients && s.clients[c].feed.joined && !s.clients[c].link.broken
    requires i < |s.clients[c].feed.snapshot| && !Fits(s.clients[c].feed.snapshot[i])
    ensures |Hand(s.clients[c].pc)| <= |s.clients[c].feed.taken|
    ensures InLoop(s.clients[c].pc) ==> |Tried(s.clients[c])| <= i
  {
    KeptExactly(s, c);
    QueuesAreFifo(s, c);
    var me := s.clients[c];
    if InLoop(me.pc) && i < |Tried(me)| {
      TakenIsDue(me.feed, s.shared.log, c in s.shared.displays, me.queue.items, Owed(s, c), i);
      TriedIsTaken(me, i);
    }
  }

  lemma TriedIsTaken(c: Client, i: nat)
    requires |Hand(c.pc)| <= |c.feed.taken| && i < |Tried(c)|
    ensures Tried(c)[i] == c.feed.taken[i]
  {
  }

  lemma TakenIsDue(feed: Feed, log: seq<Message>, present: bool, items: seq<Message>, owed: seq<Message>, i: nat)
    requires feed.start <= |log| && (present || feed.start <= feed.stop <= |log|)
    requires feed.taken + items + owed == Due(feed, log, present) && i < |feed.taken| && i < |feed.snapshot|
    ensures feed.taken[i] == feed.snapshot[i]
  {
    assert (feed.taken + items + owed)[i] == feed.taken[i];
  }

  lemma DueIsShort(feed: Feed, log: seq<Message>, present: bool, i: nat)
    requires feed.start <= |log| && (present || feed.start <= feed.stop <= |log|) && i < |Due(feed, log, present)|
    requires All(Short, feed.snapshot) && All(Short, log)
    ensures Short(Due(feed, log, present)[i])
  {
    PartHas(Short, feed.snapshot, log, feed.start, if present then |log| else feed.stop, i);
  }

  lemma PartHas<T>(p: T -> bool, a: seq<T>, log: seq<T>, start: nat, stop: nat, i: nat)
    requires All(p, a) && All(p, log)
    requires start <= stop <= |log| && i < |a + log[start..stop]|
    ensures p((a + log[start..stop])[i])
  {
    if i >= |a| {
      assert (a + log[start..stop])[i] == log[start + i - |a|];
    }
  }

  lemma NoLongMessage(c: Client, sh: Shared, present: bool, items: seq<Message>, owed: seq<Message>)
    requires LeftOk(c) && c.feed.joined && !c.link.broken && FeedOk(c.feed, sh.log, present, items, owed)
    requires Logged(sh) && All(Short, sh.log) && All(Short, c.feed.snapshot)
    ensures InLoop(c.pc)
  {
    if !InLoop(c.pc) {
      var n := |Updates(c.link.sent)|;
      assert Given(c.feed, items, owed)[n] == c.feed.taken[n];
      DueIsShort(c.feed, sh.log, present, n);
      DueDeliverable(c.feed, sh.log, present, n);
      ShortFits(c.feed.taken[n]);
    }
  }

  lemma KeptInLoop(s: Sys, c: Tid)
    requires Synchronized(s) && Flowing(s) && LeftForCause(s) && Logged(s.shared)
    requires c in s.clients && s.clients[c].feed.joined && !s.clients[c].link.broken
    requires All(Short, s.shared.log) && All(Short, s.clients[c].feed.snapshot)
    ensures c in s.shared.displays && InLoop(s.clients[c].pc)
  {
    var client := s.clients[c];
    assert LeftOk(client);
    NoLongMessage(client, s.shared, c in s.shared.displays, client.queue.items, Owed(s, c));
    InLoopIsRegistered(s, c);
  }

  /** If every new order was roomy under the id that it got, a display that has been registered and
      whose connection holds is still registered and in its loop. */
  lemma DisplaysAreKept(s: Sys, c: Tid)
    requires Reached(s) && c in s.clients && s.clients[c].feed.joined && !s.clients[c].link.broken
    requires RoomyRun(s.shared.served)
    ensures c in s.shared.displays && InLoop(s.clients[c].pc)
  {
    ReachedKeeps(s);
    SnapshotsOfReached(s);
    LogIsShort(s.shared, InProgress(s));
    SnapshotOfRoomyRun(s.shared.served, s.clients[c].feed);
    KeptInLoop(s, c);
  }
}
