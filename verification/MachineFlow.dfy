/** Messages on their way: every registered client gets its snapshot and then the log, in order
    and without loss, whatever the interleaving of pushes and pops. */
module MachineFlow {
  import opened Wrappers
  import opened Model
  import opened ServerSpec
  import opened ServerProofs
  import opened WireProofs
  import opened History
  import opened Machine
  import opened MachineLocks
  import opened MachineLog

  /** The messages among pending pushes that go to c. */
  function OwedFor(owed: seq<Push>, c: Tid): seq<Message> {
    if owed == [] then [] else (if owed[0].to == c then [owed[0].msg] else []) + OwedFor(owed[1..], c)
  }

  lemma {:induction false} OwedForBroadcast(order: seq<Tid>, msg: Message, c: Tid)
    requires forall i, j | 0 <= i < j < |order| :: order[i] != order[j]
    ensures OwedFor(Broadcast(order, msg), c) == if c in order then [msg] else []
  {
    if order != [] {
      var b := Broadcast(order, msg);
      assert b[1..] == Broadcast(order[1..], msg);
      OwedForBroadcast(order[1..], msg, c);
      assert order == [order[0]] + order[1..];
    }
  }

  lemma {:induction false} OwedForOne(t: Tid, msgs: seq<Message>, c: Tid)
    ensures OwedFor(PushAll(t, msgs), c) == if c == t then msgs else []
  {
    if msgs != [] {
      assert PushAll(t, msgs)[1..] == PushAll(t, msgs[1..]);
      OwedForOne(t, msgs[1..], c);
    }
  }

  function OwedPc(pc: Pc, c: Tid): seq<Message> {
    if pc.Inside? then OwedFor(pc.owed, c) else []
  }

  /** The pushes to c still to be made by the thread in the server's critical section. */
  function Owed(s: Sys, c: Tid): seq<Message> {
    if s.shared.lock.Some? && s.shared.lock.value in s.clients then OwedPc(s.clients[s.shared.lock.value].pc, c) else []
  }

  /** What has been given to c: taken from its queue, waiting in it, still to be pushed. */
  function Given(feed: Feed, items: seq<Message>, owed: seq<Message>): seq<Message> {
    feed.taken + items + owed
  }

  /** What c is due: its snapshot, and the log since its registration, up to its removal. */
  function Due(feed: Feed, log: seq<Message>, present: bool): seq<Message>
    requires feed.start <= |log| && (present || feed.start <= feed.stop <= |log|)
  {
    feed.snapshot + log[feed.start..if present then |log| else feed.stop]
  }

  ghost predicate FeedOk(feed: Feed, log: seq<Message>, present: bool, items: seq<Message>, owed: seq<Message>) {
    if feed.joined then
      && feed.start <= |log|
      && (!present ==> feed.start <= feed.stop <= |log|)
      && Given(feed, items, owed) == Due(feed, log, present)
      && feed.snapshot == Snapshot(PointAt(log[..feed.start]).view)
      && Replay(map[], feed.snapshot) == Ok(PointAt(log[..feed.start]).view)
      && (forall m | m in feed.snapshot :: Sendable(m) && IsUpdate(m))
    else
      !present && feed.taken == [] && items == [] && owed == []
  }

  /** Where a thread can be before its registration. */
  predicate BeforeJoin(pc: Pc) {
    match pc
    case Login => true
    case Idle => true
    case Answer(_, _) => true
    case Want(job) => !job.Leave?
    case Inside(job, stage, _, _) => job.Serve? || (job.Join? && stage == Begin)
    case _ => false
  }

  ghost predicate Flowing(s: Sys) {
    forall c | c in s.clients ::
      && FeedOk(s.clients[c].feed, s.shared.log, c in s.shared.displays, s.clients[c].queue.items, Owed(s, c))
      && (BeforeJoin(s.clients[c].pc) ==> !s.clients[c].feed.joined)
      && (Enrolled(s.clients[c].pc) || (s.clients[c].pc.Inside? && s.clients[c].pc.job.Leave?) ==>
         s.clients[c].feed.joined)
  }

  // ----- one step -----

  lemma {:induction false} SnapshotFrom(view: Orders, orders: Orders)
    requires forall k | k in orders :: orders[k].id == k
    ensures Replay(view, Snapshot(orders)) == Ok(view + orders)
    decreases orders.Keys
  {
    if orders == map[] {
      assert view + orders == view;
    } else {
      var k := MinKey(orders);
      var m := OrderMessage(DISP_ORDER, orders[k]);
      var view', rest := view[k := orders[k]], orders - {k};
      SnapshotFrom(view', rest);
      ReplayOne(view, m);
      ReplayAppend(view, [m], Snapshot(rest));
      assert view' + rest == view + orders;
    }
  }

  lemma {:induction false} SnapshotSendable(orders: Orders)
    requires forall k | k in orders :: WireOrder(orders[k])
    ensures forall m | m in Snapshot(orders) :: Sendable(m) && IsUpdate(m)
    decreases orders.Keys
  {
    if orders != map[] {
      SnapshotSendable(orders - {MinKey(orders)});
    }
  }

  lemma SnapshotReplays(orders: Orders)
    requires forall k | k in orders :: orders[k].id == k && WireOrder(orders[k])
    ensures Replay(map[], Snapshot(orders)) == Ok(orders)
    ensures forall m | m in Snapshot(orders) :: Sendable(m) && IsUpdate(m)
  {
    var none: Orders := map[];
    SnapshotFrom(none, orders);
    SnapshotSendable(orders);
    assert none + orders == orders;
  }

  function OldFeed(s: Sys, c: Tid): Feed {
    if c in s.clients then s.clients[c].feed else FRESH.feed
  }

  /** The step broadcasts, or begins a registration or its removal. */
  predicate Announces(e: Event, pc: Pc) {
    e.Proceed? && pc.Inside? && (if pc.job.Serve? then pc.stage != End else pc.stage == Begin)
  }

  /** Steps that leave every message where it is. */
  lemma PlainStep(s: Sys, e: Event, c: Tid)
    requires Can(s, e) && (c in s.clients || c == e.t)
    requires !Announces(e, Own(s, e).pc) && !e.PushBack? && !e.PopFront?
    ensures var eff := EffectOf(s, e).value;
            && eff.shared.log == s.shared.log && eff.shared.displays == s.shared.displays
            && eff.me.feed == Own(s, e).feed
            && NewQueue(s, e, eff, c).items == OldQueue(s, c).items
            && OwedPc(eff.me.pc, c) == OwedPc(Own(s, e).pc, c)
  {
    if PushEvent(e) {
      PlainPush(s, e, c, EffectOf(s, e).value);
    } else {
      OnlyPushTouchesOthers(s, e);
    }
  }

  lemma PlainPush(s: Sys, e: Event, c: Tid, eff: Effect)
    requires PushEvent(e) && !e.PushBack? && e.t in s.clients && StepPush(s, e, s.clients[e.t]) == Some(eff)
    requires c in s.clients || c == e.t
    ensures eff.shared.log == s.shared.log && eff.shared.displays == s.shared.displays
    ensures eff.me.feed == s.clients[e.t].feed
    ensures NewQueue(s, e, eff, c).items == OldQueue(s, c).items
    ensures OwedPc(eff.me.pc, c) == OwedPc(s.clients[e.t].pc, c)
  {
  }

  /** A push moves the message at the front of the pending pushes to the end of its queue. */
  lemma PushBackStep(s: Sys, e: Event, c: Tid, eff: Effect)
    requires e.PushBack? && e.t in s.clients && StepPush(s, e, s.clients[e.t]) == Some(eff) && c in s.clients
    ensures eff.shared == s.shared && eff.me.feed == s.clients[e.t].feed
    ensures s.clients[e.t].pc.Inside? && eff.me.pc.Inside?
    ensures NewQueue(s, e, eff, c).items + OwedPc(eff.me.pc, c) ==
            s.clients[c].queue.items + OwedPc(s.clients[e.t].pc, c)
  {
    var q, owed := s.clients[c].queue.items, s.clients[e.t].pc.owed;
    if owed[0].to == c {
      assert q + ([owed[0].msg] + OwedFor(owed[1..], c)) == (q + [owed[0].msg]) + OwedFor(owed[1..], c);
    } else {
      assert OwedFor(owed, c) == OwedFor(owed[1..], c);
    }
  }

  /** A pop moves the message at the front of the thread's own queue into its hands. */
  lemma PopFrontStep(sh: Shared, c: Client, eff: Effect)
    requires StepPopFront(sh, c) == Some(eff) && c.queue.items != []
    ensures eff.shared == sh && eff.queue.None? && !c.pc.Inside? && !eff.me.pc.Inside?
    ensures eff.me.feed == c.feed.(taken := eff.me.feed.taken)
    ensures eff.me.feed.taken + eff.me.queue.items == c.feed.taken + c.queue.items
  {
    assert c.queue.items == [c.queue.items[0]] + c.queue.items[1..];
  }

  /** A broadcast appends one message to the log, and owes it once to every registered client. */
  lemma ServeStep(sh: Shared, t: Tid, me: Client, order: seq<Tid>, eff: Effect, c: Tid)
    requires me.pc.Inside? && me.pc.job.Serve? && me.pc.owed == [] && me.pc.stage != End
    requires StepServe(sh, t, me, order) == Some(eff)
    ensures eff.queue.None? && eff.me.feed == me.feed && eff.me.queue == me.queue && eff.shared.displays == sh.displays
    ensures sh.log <= eff.shared.log
    ensures OwedPc(eff.me.pc, c) == if c in sh.displays then eff.shared.log[|sh.log|..] else []
  {
    if eff.shared.log != sh.log {
      var msg := eff.shared.log[|sh.log|];
      assert eff.shared.log[|sh.log|..] == [msg];
      assert eff.me.pc.owed == Broadcast(order, msg);
      OwedForBroadcast(order, msg, c);
    }
  }

  lemma FeedPlain(feed: Feed, log: seq<Message>, present: bool, items: seq<Message>, owed: seq<Message>,
                  feed': Feed, items': seq<Message>, owed': seq<Message>)
    requires FeedOk(feed, log, present, items, owed)
    requires feed' == feed.(taken := feed'.taken) && feed'.taken + items' + owed' == feed.taken + items + owed
    requires !feed.joined ==> feed'.taken == [] && items' == [] && owed' == []
    ensures FeedOk(feed', log, present, items', owed')
  {
  }

  lemma FeedGrows(feed: Feed, log: seq<Message>, log': seq<Message>, present: bool, items: seq<Message>)
    requires FeedOk(feed, log, present, items, []) && log <= log'
    ensures FeedOk(feed, log', present, items, if present then log'[|log|..] else [])
  {
    assert log'[..|log|] == log;
    if feed.joined {
      assert log'[..feed.start] == log[..feed.start];
      var given := feed.taken + items;
      assert given + [] == given;
      if present {
        assert log'[feed.start..|log'|] == log[feed.start..|log|] + log'[|log|..];
        var a, b, d := feed.snapshot, log[feed.start..|log|], log'[|log|..];
        assert (a + b) + d == a + (b + d);
      } else {
        assert log'[feed.start..feed.stop] == log[feed.start..feed.stop];
      }
    }
  }

  // ----- all clients -----

  ghost predicate FeedAt(s: Sys, c: Tid) {
    FeedOk(OldFeed(s, c), s.shared.log, c in s.shared.displays, OldQueue(s, c).items, Owed(s, c))
  }

  lemma {:induction false} OwedForAbsent(owed: seq<Push>, c: Tid)
    requires forall i | 0 <= i < |owed| :: owed[i].to != c
    ensures OwedFor(owed, c) == []
  {
    if owed != [] {
      OwedForAbsent(owed[1..], c);
    }
  }

  lemma FeedAtAny(s: Sys, c: Tid)
    requires Synchronized(s) && Flowing(s)
    ensures FeedAt(s, c)
  {
    if c !in s.clients && s.shared.lock.Some? {
      var pc := s.clients[s.shared.lock.value].pc;
      assert OwedAlive(pc, s.shared.displays);
      OwedForAbsent(pc.owed, c);
    }
  }

  /** The pushes owed to c change with the acting thread, if it is inside, and not otherwise. */
  lemma OwedMoved(s: Sys, e: Event, s': Sys, c: Tid)
    requires Synchronized(s) && Synchronized(s') && Framed(s, e, s')
    requires LockMoved(e.t, Own(s, e).pc, s'.clients[e.t].pc, s.shared.lock, s'.shared.lock)
    ensures var before, after := Own(s, e).pc, s'.clients[e.t].pc;
            if before.Inside? || after.Inside? then Owed(s, c) == OwedPc(before, c) && Owed(s', c) == OwedPc(after, c)
            else Owed(s', c) == Owed(s, c) && OwedPc(before, c) == [] && OwedPc(after, c) == []
  {
  }

  /** The state after a step, seen through its effect. */
  ghost predicate Via(s: Sys, e: Event, eff: Effect, s': Sys) {
    && Framed(s, e, s')
    && s'.shared == eff.shared
    && s'.clients[e.t].pc == eff.me.pc && s'.clients[e.t].feed == eff.me.feed
    && s'.clients[e.t].link == eff.me.link && s'.clients[e.t].talk == eff.me.talk
    && (forall c | c in s'.clients :: s'.clients[c].queue == NewQueue(s, e, eff, c))
    && LockMoved(e.t, Own(s, e).pc, eff.me.pc, s.shared.lock, s'.shared.lock)
  }

  lemma StepVia(s: Sys, e: Event, s': Sys)
    requires Synchronized(s) && Step(s, e) == Some(s')
    ensures Can(s, e) && Via(s, e, EffectOf(s, e).value, s')
  {
    StepMakesMe(s, e, s');
    StepIsFramed(s, e, s');
    StepQueues(s, e, s');
    OwnLock(s, e);
    ViaByParts(s, e, EffectOf(s, e).value, s');
  }

  lemma StepMakesMe(s: Sys, e: Event, s': Sys)
    requires Step(s, e) == Some(s')
    ensures Can(s, e) && s'.shared == EffectOf(s, e).value.shared
    ensures e.t in s'.clients && s'.clients[e.t] == EffectOf(s, e).value.me.(queue := s'.clients[e.t].queue)
  {
  }

  lemma OwnLock(s: Sys, e: Event)
    requires ServerLock(s) && Can(s, e)
    ensures LockMoved(e.t, Own(s, e).pc, EffectOf(s, e).value.me.pc, s.shared.lock, EffectOf(s, e).value.shared.lock)
  {
    LockMoves(s, e);
  }

  lemma ViaByParts(s: Sys, e: Event, eff: Effect, s': Sys)
    requires Framed(s, e, s') && s'.shared == eff.shared && s'.clients[e.t] == eff.me.(queue := s'.clients[e.t].queue)
    requires forall c | c in s'.clients :: s'.clients[c].queue == NewQueue(s, e, eff, c)
    requires LockMoved(e.t, Own(s, e).pc, eff.me.pc, s.shared.lock, eff.shared.lock)
    ensures Via(s, e, eff, s')
  {
  }

  /** What a step makes of c, in terms of the effect. */
  ghost predicate At(s: Sys, e: Event, eff: Effect, s': Sys, c: Tid) {
    && c in s'.clients
    && s'.shared == eff.shared
    && s'.clients[c].queue == NewQueue(s, e, eff, c)
    && s'.clients[c].feed == (if c == e.t then eff.me.feed else OldFeed(s, c))
    && if Own(s, e).pc.Inside? || eff.me.pc.Inside?
       then Owed(s, c) == OwedPc(Own(s, e).pc, c) && Owed(s', c) == OwedPc(eff.me.pc, c)
       else Owed(s', c) == Owed(s, c) && OwedPc(Own(s, e).pc, c) == [] && OwedPc(eff.me.pc, c) == []
  }

  lemma ViaAt(s: Sys, e: Event, eff: Effect, s': Sys, c: Tid)
    requires Synchronized(s) && Synchronized(s') && Via(s, e, eff, s') && c in s'.clients
    ensures At(s, e, eff, s', c)
  {
    OwedMoved(s, e, s', c);
  }

  lemma SameAppend<T>(a: seq<T>, q: seq<T>, o: seq<T>, q': seq<T>, o': seq<T>)
    requires q + o == q' + o'
    ensures a + q + o == a + q' + o'
  {
    assert a + q + o == a + (q + o);
    assert a + q' + o' == a + (q' + o');
  }

  lemma PlainKeepsFeed(s: Sys, e: Event, eff: Effect, s': Sys, c: Tid)
    requires FeedAt(s, c) && At(s, e, eff, s', c)
    requires eff.shared.log == s.shared.log && eff.shared.displays == s.shared.displays
    requires c == e.t ==> eff.me.feed == OldFeed(s, c)
    requires var q, q' := OldQueue(s, c).items, NewQueue(s, e, eff, c).items;
             || (q' == q && OwedPc(eff.me.pc, c) == OwedPc(Own(s, e).pc, c))
             || (Own(s, e).pc.Inside? && q' + OwedPc(eff.me.pc, c) == q + OwedPc(Own(s, e).pc, c))
    ensures FeedAt(s', c)
  {
    var q, q', o, o' := OldQueue(s, c).items, s'.clients[c].queue.items, Owed(s, c), Owed(s', c);
    assert q' + o' == q + o;
    assert |q' + o'| == |q + o|;
    SameAppend(OldFeed(s, c).taken, q, o, q', o');
    FeedPlain(OldFeed(s, c), s.shared.log, c in s.shared.displays, q, o, OldFeed(s, c), q', o');
  }

  lemma PopKeepsFeed(s: Sys, e: Event, eff: Effect, s': Sys, c: Tid)
    requires FeedAt(s, c) && At(s, e, eff, s', c) && e.t in s.clients
    requires StepPopFront(s.shared, s.clients[e.t]) == Some(eff) && s.clients[e.t].queue.items != []
    ensures FeedAt(s', c)
  {
    PopFrontStep(s.shared, s.clients[e.t], eff);
    if c == e.t {
      FeedPlain(s.clients[c].feed, s.shared.log, c in s.shared.displays, s.clients[c].queue.items, Owed(s, c),
                eff.me.feed, eff.me.queue.items, Owed(s', c));
    }
  }

  lemma ServeKeepsFeed(s: Sys, e: Event, eff: Effect, s': Sys, order: seq<Tid>, c: Tid)
    requires FeedAt(s, c) && At(s, e, eff, s', c) && e.t in s.clients
    requires var pc := s.clients[e.t].pc; pc.Inside? && pc.job.Serve? && pc.owed == [] && pc.stage != End
    requires StepServe(s.shared, e.t, s.clients[e.t], order) == Some(eff)
    ensures FeedAt(s', c)
  {
    ServeStep(s.shared, e.t, s.clients[e.t], order, eff, c);
    FeedGrows(OldFeed(s, c), s.shared.log, eff.shared.log, c in s.shared.displays, OldQueue(s, c).items);
  }

  lemma JoinKeepsFeed(s: Sys, e: Event, eff: Effect, s': Sys, c: Tid)
    requires FeedAt(s, c) && At(s, e, eff, s', c) && e.t in s.clients
    requires var pc := s.clients[e.t].pc; pc.Inside? && pc.job.Join? && pc.owed == [] && pc.stage == Begin
    requires !s.clients[e.t].feed.joined
    requires Logged(s.shared) && Inv(s.shared.server)
    requires StepEnroll(s.shared, e.t, s.clients[e.t]) == Some(eff)
    ensures FeedAt(s', c)
  {
    var log, msgs := s.shared.log, Snapshot(s.shared.server.orders);
    OwedForOne(e.t, msgs, c);
    if c == e.t {
      AllVisible(s.shared.server.orders);
      JoinedFeed(s.shared.server.orders, log);
    }
  }

  lemma JoinedFeed(orders: Orders, log: seq<Message>)
    requires forall k | k in orders :: orders[k].id == k && WireOrder(orders[k])
    requires PointAt(log).view == orders
    ensures FeedOk(Feed(true, |log|, 0, Snapshot(orders), []), log, true, [], Snapshot(orders))
  {
    SnapshotReplays(orders);
    WholeLog(log);
    JoinedDue(Snapshot(orders), log);
  }

  lemma WholeLog<T>(log: seq<T>)
    ensures log[..|log|] == log
  {
  }

  lemma JoinedDue(msgs: seq<Message>, log: seq<Message>)
    ensures Given(Feed(true, |log|, 0, msgs, []), [], msgs) == Due(Feed(true, |log|, 0, msgs, []), log, true)
  {
    assert [] + [] + msgs == msgs && msgs + log[|log|..|log|] == msgs;
  }

  lemma LeaveKeepsFeed(s: Sys, e: Event, eff: Effect, s': Sys, c: Tid)
    requires FeedAt(s, c) && At(s, e, eff, s', c) && e.t in s.clients
    requires var pc := s.clients[e.t].pc; pc.Inside? && pc.job.Leave? && pc.owed == [] && pc.stage == Begin
    requires s.clients[e.t].feed.joined && e.t in s.shared.displays
    requires StepEnroll(s.shared, e.t, s.clients[e.t]) == Some(eff)
    ensures FeedAt(s', c)
  {
  }

  lemma PhaseMoves(s: Sys, e: Event)
    requires Can(s, e)
    requires BeforeJoin(Own(s, e).pc) ==> !Own(s, e).feed.joined
    requires Enrolled(Own(s, e).pc) || (Own(s, e).pc.Inside? && Own(s, e).pc.job.Leave?) ==> Own(s, e).feed.joined
    ensures var me := EffectOf(s, e).value.me;
            && (BeforeJoin(me.pc) ==> !me.feed.joined)
            && (Enrolled(me.pc) || (me.pc.Inside? && me.pc.job.Leave?) ==> me.feed.joined)
  {
  }

  lemma AnnounceKeepsFeed(s: Sys, e: Event, eff: Effect, s': Sys, c: Tid)
    requires FeedAt(s, c) && At(s, e, eff, s', c)
    requires Can(s, e) && EffectOf(s, e) == Some(eff) && Announces(e, Own(s, e).pc)
    requires var me := s.clients[e.t];
             && (BeforeJoin(me.pc) ==> !me.feed.joined)
             && (Enrolled(me.pc) ==> me.feed.joined && e.t in s.shared.displays)
             && (me.pc.job.Join? ==> Logged(s.shared) && Inv(s.shared.server))
    ensures FeedAt(s', c)
  {
    var pc := s.clients[e.t].pc;
    if pc.job.Serve? {
      ServeKeepsFeed(s, e, eff, s', e.order, c);
    } else if pc.job.Join? {
      JoinKeepsFeed(s, e, eff, s', c);
    } else {
      LeaveKeepsFeed(s, e, eff, s', c);
    }
  }

  lemma MoveKeepsFeed(s: Sys, e: Event, eff: Effect, s': Sys, c: Tid)
    requires FeedAt(s, c) && At(s, e, eff, s', c) && (c in s.clients || c == e.t)
    requires Can(s, e) && EffectOf(s, e) == Some(eff) && !Announces(e, Own(s, e).pc) && !eff.shared.fault
    ensures FeedAt(s', c)
  {
    if e.PopFront? {
      PopKeepsFeed(s, e, eff, s', c);
    } else {
      if e.PushBack? {
        PushBackStep(s, e, c, eff);
      } else {
        PlainStep(s, e, c);
      }
      PlainKeepsFeed(s, e, eff, s', c);
    }
  }

  lemma ServerInvAtJoin(s: Sys, t: Tid)
    requires Synchronized(s) && Recorded(s) && t in s.clients && s.clients[t].pc.Inside? && s.clients[t].pc.job.Join?
    ensures Inv(s.shared.server) && Logged(s.shared)
  {
    InvOfRun(s.shared.served);
  }

  lemma FlowingKept(s: Sys, e: Event, s': Sys)
    requires Synchronized(s) && Synchronized(s') && Recorded(s) && Flowing(s) && Step(s, e) == Some(s')
    ensures Flowing(s')
  {
    StepVia(s, e, s');
    PhaseMoves(s, e);
    AllAt(s, e, EffectOf(s, e).value, s');
    FeedsKept(s, e, EffectOf(s, e).value, s');
    FlowingByParts(s, e, EffectOf(s, e).value, s');
  }

  /** c's feed before the step, and what the step makes of it. */
  ghost predicate Moving(s: Sys, e: Event, eff: Effect, s': Sys, c: Tid) {
    FeedAt(s, c) && At(s, e, eff, s', c) && (c in s.clients || c == e.t)
  }

  lemma AllAt(s: Sys, e: Event, eff: Effect, s': Sys)
    requires Synchronized(s) && Synchronized(s') && Flowing(s) && Via(s, e, eff, s')
    ensures !eff.shared.fault && forall c | c in s'.clients :: Moving(s, e, eff, s', c)
  {
    forall c | c in s'.clients
      ensures Moving(s, e, eff, s', c)
    {
      FeedAtAny(s, c);
      ViaAt(s, e, eff, s', c);
    }
  }

  lemma FeedsKept(s: Sys, e: Event, eff: Effect, s': Sys)
    requires Synchronized(s) && Recorded(s) && Flowing(s) && forall c | c in s'.clients :: Moving(s, e, eff, s', c)
    requires Can(s, e) && EffectOf(s, e) == Some(eff) && !eff.shared.fault
    ensures forall c | c in s'.clients :: FeedAt(s', c)
  {
    forall c | c in s'.clients
      ensures FeedAt(s', c)
    {
      FeedKept(s, e, eff, s', c);
    }
  }

  lemma FeedKept(s: Sys, e: Event, eff: Effect, s': Sys, c: Tid)
    requires Synchronized(s) && Recorded(s) && Flowing(s) && Moving(s, e, eff, s', c)
    requires Can(s, e) && EffectOf(s, e) == Some(eff) && !eff.shared.fault
    ensures FeedAt(s', c)
  {
    if Announces(e, Own(s, e).pc) {
      AnnouncerOk(s, e.t);
      AnnounceKeepsFeed(s, e, eff, s', c);
    } else {
      MoveKeepsFeed(s, e, eff, s', c);
    }
  }

  lemma AnnouncerOk(s: Sys, t: Tid)
    requires Synchronized(s) && Recorded(s) && Flowing(s) && t in s.clients && s.clients[t].pc.Inside?
    ensures var me := s.clients[t];
            && (BeforeJoin(me.pc) ==> !me.feed.joined)
            && (Enrolled(me.pc) ==> me.feed.joined && t in s.shared.displays)
            && (me.pc.job.Join? ==> Logged(s.shared) && Inv(s.shared.server))
  {
    if s.clients[t].pc.job.Join? {
      ServerInvAtJoin(s, t);
    }
  }

  lemma FlowingByParts(s: Sys, e: Event, eff: Effect, s': Sys)
    requires Flowing(s) && Framed(s, e, s')
    requires s'.clients[e.t].pc == eff.me.pc && s'.clients[e.t].feed == eff.me.feed
    requires BeforeJoin(eff.me.pc) ==> !eff.me.feed.joined
    requires Enrolled(eff.me.pc) || (eff.me.pc.Inside? && eff.me.pc.job.Leave?) ==> eff.me.feed.joined
    requires forall c | c in s'.clients :: FeedAt(s', c)
    ensures Flowing(s')
  {
    forall c | c in s'.clients
      ensures FeedOk(s'.clients[c].feed, s'.shared.log, c in s'.shared.displays, s'.clients[c].queue.items, Owed(s', c))
    {
      assert FeedAt(s', c);
    }
  }
}
