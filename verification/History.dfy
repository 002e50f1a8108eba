/** The broadcast log as a history: statuses only move forward, and what has left does not return. */
module History {
  import opened Model
  import opened ServerSpec
  import opened ServerProofs

  function ItemRank(st: ItemStatus): nat {
    match st
    case INVALID => 0
    case NEW => 1
    case IN_PROGRESS => 2
    case DONE => 3
  }

  function OrderRank(st: OrderStatus): nat {
    match st
    case INVALID => 0
    case NEW => 1
    case IN_PROGRESS => 2
    case DONE => 3
    case DELIVERED => 4
  }

  /** What replaying a log leads to: the orders shown, and the first id not announced yet. */
  datatype Point = Point(view: Orders, next: int)

  function OrdersIn(log: seq<Message>): nat {
    if log == [] then 0 else OrdersIn(log[..|log| - 1]) + if log[|log| - 1].kind == DISP_ORDER then 1 else 0
  }

  function PointAt(log: seq<Message>): Point {
    Point(if Replay(map[], log).Ok? then Replay(map[], log).value else map[], FIRST_ID + OrdersIn(log))
  }

  /** The message is a proper next step from p: a fresh order, or one status moved one step forward. */
  predicate Legal(p: Point, m: Message) {
    match m.kind
    case DISP_ORDER => m.HasOrder() && m.order.value.id == p.next
    case DISP_ITEM_UPDATE =>
      && m.orderId in p.view && Show(p.view, m).Ok?
      && Forward(p.view[m.orderId].items[FindItem(p.view[m.orderId].items, m.itemId).value].status, m.itemStatus)
    case DISP_ORDER_UPDATE =>
      m.orderId in p.view && Show(p.view, m).Ok? && OrderRank(m.orderStatus) == OrderRank(p.view[m.orderId].status) + 1
    case _ => false
  }

  predicate LegalLog(log: seq<Message>) {
    log == [] || (LegalLog(log[..|log| - 1]) && Legal(PointAt(log[..|log| - 1]), log[|log| - 1]))
  }

  /** The same order with every status at least as far along. */
  predicate OrderAdvances(a: Order, b: Order) {
    && a.id == b.id
    && OrderRank(a.status) <= OrderRank(b.status)
    && |a.items| == |b.items|
    && forall i | 0 <= i < |a.items| ::
         b.items[i] == a.items[i].(status := b.items[i].status)
             && ItemRank(a.items[i].status) <= ItemRank(b.items[i].status)
  }

  /** From p to q: orders still shown have advanced, and orders newly shown have fresh ids. */
  ghost predicate Advances(p: Point, q: Point) {
    && p.next <= q.next
    && (forall k | k in q.view :: k < q.next && (k in p.view || p.next <= k))
    && (forall k | k in q.view && k in p.view :: OrderAdvances(p.view[k], q.view[k]))
  }

  lemma AdvancesTransitively(p: Point, q: Point, r: Point)
    requires Advances(p, q) && Advances(q, r)
    requires forall k | k in p.view :: k < p.next
    ensures Advances(p, r)
  {
    forall k | k in r.view && k in p.view
      ensures OrderAdvances(p.view[k], r.view[k])
    {
      assert k in q.view;
      var a, b, c := p.view[k], q.view[k], r.view[k];
      forall i | 0 <= i < |a.items|
        ensures c.items[i] == a.items[i].(status := c.items[i].status)
                && ItemRank(a.items[i].status) <= ItemRank(c.items[i].status)
      {
        assert b.items[i] == a.items[i].(status := b.items[i].status);
        assert c.items[i] == b.items[i].(status := c.items[i].status);
      }
    }
  }

  lemma LegalStepAdvances(p: Point, m: Message)
    requires (forall k | k in p.view :: k < p.next) && Legal(p, m)
    ensures Show(p.view, m).Ok?
    ensures Advances(p, Point(Show(p.view, m).value, p.next + if m.kind == DISP_ORDER then 1 else 0))
  {
  }

  lemma {:induction false} LegalLogReplays(log: seq<Message>)
    requires LegalLog(log)
    ensures Replay(map[], log).Ok?
    ensures forall k | k in PointAt(log).view :: k < PointAt(log).next
    ensures log != [] ==> Advances(PointAt(log[..|log| - 1]), PointAt(log))
  {
    if log != [] {
      LegalLogReplays(log[..|log| - 1]);
      LegalStepAdvances(PointAt(log[..|log| - 1]), log[|log| - 1]);
    }
  }

  lemma {:induction false} LegalPrefix(log: seq<Message>, i: nat)
    requires LegalLog(log) && i <= |log|
    ensures LegalLog(log[..i])
  {
    if i < |log| {
      LegalPrefix(log[..|log| - 1], i);
      assert log[..|log| - 1][..i] == log[..i];
    } else {
      assert log[..i] == log;
    }
  }

  /** Along a legal log, later points advance earlier ones. */
  lemma {:induction false} LogAdvances(log: seq<Message>, i: nat, j: nat)
    requires LegalLog(log) && i <= j <= |log|
    ensures Advances(PointAt(log[..i]), PointAt(log[..j]))
    decreases j
  {
    var p := PointAt(log[..i]);
    PointBounds(log, i);
    if i < j {
      LogAdvances(log, i, j - 1);
      NextPointAdvances(log, j - 1);
      AdvancesTransitively(p, PointAt(log[..j - 1]), PointAt(log[..j]));
    } else {
      AdvancesReflexively(p);
    }
  }

  lemma PointBounds(log: seq<Message>, i: nat)
    requires LegalLog(log) && i <= |log|
    ensures forall k | k in PointAt(log[..i]).view :: k < PointAt(log[..i]).next
  {
    LegalPrefix(log, i);
    LegalLogReplays(log[..i]);
  }

  lemma NextPointAdvances(log: seq<Message>, i: nat)
    requires LegalLog(log) && i < |log|
    ensures Advances(PointAt(log[..i]), PointAt(log[..i + 1]))
  {
    LegalPrefix(log, i + 1);
    LegalLogReplays(log[..i + 1]);
    assert log[..i + 1][..i] == log[..i];
  }

  lemma AdvancesReflexively(p: Point)
    requires forall k | k in p.view :: k < p.next
    ensures Advances(p, p)
  {
  }

  /** An order that was shown and has gone is not shown again. */
  lemma NeverReappears(log: seq<Message>, i: nat, j: nat, l: nat, k: int)
    requires LegalLog(log) && i <= j <= l <= |log|
    requires k in PointAt(log[..i]).view && k !in PointAt(log[..j]).view
    ensures k !in PointAt(log[..l]).view
  {
    LogAdvances(log, i, j);
    LogAdvances(log, j, l);
    PointBounds(log, i);
  }

  lemma {:induction false} OrdersInGrows(log: seq<Message>, i: nat, j: nat)
    requires i < j <= |log| && log[i].kind == DISP_ORDER
    ensures OrdersIn(log[..i]) < OrdersIn(log[..j])
    decreases j
  {
    assert log[..j][..j - 1] == log[..j - 1];
    if i < j - 1 {
      OrdersInGrows(log, i, j - 1);
    }
  }

  /** An announced order never overwrites one that is shown, and ids are given once. */
  lemma IdsAreFresh(log: seq<Message>, i: nat, j: nat)
    requires LegalLog(log) && i < j < |log| && log[i].kind == DISP_ORDER && log[j].kind == DISP_ORDER
    ensures log[i].HasOrder() && log[j].HasOrder()
    ensures log[j].order.value.id !in PointAt(log[..j]).view
    ensures FIRST_ID <= log[i].order.value.id < log[j].order.value.id
  {
    AnnouncedNext(log, i);
    AnnouncedNext(log, j);
    OrdersInGrows(log, i, j);
  }

  lemma AnnouncedNext(log: seq<Message>, i: nat)
    requires LegalLog(log) && i < |log| && log[i].kind == DISP_ORDER
    ensures log[i].HasOrder() && log[i].order.value.id == FIRST_ID + OrdersIn(log[..i])
    ensures log[i].order.value.id !in PointAt(log[..i]).view
  {
    PointBounds(log, i);
    LegalPrefix(log, i + 1);
    assert log[..i + 1][..i] == log[..i];
  }

  // ----- the server's log is legal -----

  lemma LegalNext(log: seq<Message>, m: Message)
    requires LegalLog(log) && Legal(PointAt(log), m)
    ensures LegalLog(log + [m])
    ensures Show(PointAt(log).view, m).Ok?
    ensures PointAt(log + [m]) ==
            Point(Show(PointAt(log).view, m).value, PointAt(log).next + if m.kind == DISP_ORDER then 1 else 0)
  {
    assert (log + [m])[..|log|] == log;
    LegalLogReplays(log);
    LegalStepAdvances(PointAt(log), m);
  }

  lemma StartIsLegal(s: State, r: Request)
    requires Inv(s) && Admissible(s, r) && Start(s, r).Ok?
    ensures Legal(Point(s.orders, s.next), Start(s, r).value.msg)
    ensures Start(s, r).value.state.next == s.next + if Start(s, r).value.msg.kind == DISP_ORDER then 1 else 0
  {
    StartShows(s, r);
  }

  lemma FollowIsLegal(s: State, r: Request)
    requires Inv(s) && Admissible(s, r) && Start(s, r).Ok? && Follow(Start(s, r).value.state, r).Some?
    ensures var first := Start(s, r).value.state;
            var second := Follow(first, r).value;
            && Legal(Point(Visible(first.orders), first.next), second.msg)
            && second.state.next == first.next && second.msg.kind != DISP_ORDER
  {
    FollowShows(s, r);
    AllVisible(Start(s, r).value.state.orders);
  }
}
