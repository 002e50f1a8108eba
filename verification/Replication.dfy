/** The main theorem. What a display shows, together with everything on its way to it, is the
    server's set of orders; and what it has shown so far is a history of the server's orders. */
module Replication {
  import opened Wrappers
  import opened Model
  import opened Wire
  import opened WireProofs
  import opened Framing
  import opened Streams
  import opened ServerSpec
  import opened ServerProofs
  import opened History
  import opened Protocol
  import opened Machine
  import opened MachineLog
  import opened MachineFlow
  import opened MachineLinks
  import opened MachineRuns

  // ----- screens -----

  lemma {:induction false} ScreenAppend(screen: Screen, a: seq<Message>, b: seq<Message>)
    ensures ScreenAfter(screen, a + b) == ScreenAfter(ScreenAfter(screen, a), b)
  {
    if b == [] {
      assert a + b == a;
    } else {
      assert (a + b)[..|a + b| - 1] == a + b[..|b| - 1];
      ScreenAppend(screen, a, b[..|b| - 1]);
    }
  }

  function Shown(r: Result<Orders>): Screen {
    if r.Ok? then Running(r.value) else Stopped
  }

  /** After its login response, a display replays the updates it has been sent. */
  lemma {:induction false} ScreenReplays(ms: seq<Message>)
    requires DisplayStream(ms) && ms != []
    ensures ScreenAfter(LoggingIn, ms) == Shown(Replay(map[], Updates(ms)))
  {
    var init, m := ms[..|ms| - 1], ms[|ms| - 1];
    if init == [] {
      assert Updates(init) == [];
      assert ScreenAfter(LoggingIn, init) == LoggingIn;
      assert m == LOGIN_OK && Updates(ms) == [];
    } else {
      ScreenReplays(init);
      ScreenReplaysNext(Updates(init), m);
    }
  }

  lemma ScreenReplaysNext(updates: seq<Message>, m: Message)
    requires IsUpdate(m) || m == HEARTBEAT
    ensures ScreenStep(Shown(Replay(map[], updates)), m) ==
            Shown(Replay(map[], updates + if IsUpdate(m) then [m] else []))
  {
    if IsUpdate(m) {
      assert (updates + [m])[..|updates|] == updates;
    } else {
      assert updates + [] == updates;
    }
  }

  lemma {:induction false} UpdatesAppend(a: seq<Message>, b: seq<Message>)
    ensures Updates(a + b) == Updates(a) + Updates(b)
  {
    if b == [] {
      assert a + b == a;
    } else {
      assert (a + b)[..|a + b| - 1] == a + b[..|b| - 1];
      UpdatesAppend(a, b[..|b| - 1]);
    }
  }

  lemma {:induction false} UpdatesAll(a: seq<Message>)
    requires forall m | m in a :: IsUpdate(m)
    ensures Updates(a) == a
  {
    if a != [] {
      UpdatesAll(a[..|a| - 1]);
      assert a == a[..|a| - 1] + [a[|a| - 1]];
    }
  }

  lemma UpdatesPrefix(sent: seq<Message>, i: nat, j: nat)
    requires i <= j <= |sent|
    ensures Updates(sent[..i]) <= Updates(sent[..j])
  {
    assert sent[..j] == sent[..i] + sent[i..j];
    UpdatesAppend(sent[..i], sent[i..j]);
  }

  // ----- what a display is due -----

  /** A snapshot taken at one point of the log, and the log from there to another, lead to the other. */
  lemma SnapshotThenLog(snapshot: seq<Message>, log: seq<Message>, start: nat, p: nat)
    requires LegalLog(log) && start <= p <= |log| && Replay(map[], snapshot) == Ok(PointAt(log[..start]).view)
    ensures Replay(map[], snapshot + log[start..p]) == Ok(PointAt(log[..p]).view)
  {
    var tail := log[start..p];
    ReplayAppend(map[], snapshot, tail);
    LegalPrefix(log, start);
    LegalLogReplays(log[..start]);
    LegalPrefix(log, p);
    LegalLogReplays(log[..p]);
    assert log[..p] == log[..start] + tail;
    ReplayAppend(map[], log[..start], tail);
  }

  /** A prefix of a sequence and a slice of another. */
  lemma PrefixOfAppend<T>(shown: seq<T>, a: seq<T>, log: seq<T>, start: nat, stop: nat)
    requires start <= stop <= |log| && shown <= a + log[start..stop]
    ensures if |shown| >= |a| then |shown| - |a| <= stop - start && shown == a + log[start..start + |shown| - |a|]
            else shown <= a
  {
    assert shown == (a + log[start..stop])[..|shown|];
  }

  /** A feed, as far as its snapshot goes. */
  ghost predicate Joined(feed: Feed, log: seq<Message>, present: bool) {
    && feed.joined && feed.start <= |log| && (present || feed.start <= feed.stop <= |log|)
    && Replay(map[], feed.snapshot) == Ok(PointAt(log[..feed.start]).view)
  }

  // ----- replication -----

  /** Everything on its way to a display: the unread messages on its connection, the update in
      the hands of its thread, its queue, and the pushes under way in the critical section. */
  function Outstanding(s: Sys, c: Tid, unread: seq<Message>): seq<Message>
    requires c in s.clients
  {
    unread + (Hand(s.clients[c].pc) + s.clients[c].queue.items + Owed(s, c))
  }

  /** The bytes on the connection, decoded by repeated IO::receive and Wire::decode. */
  function Unread(bytes: string): Result<seq<Message>> {
    Traverse(Decode, ReceiveAll(bytes).0)
  }

  /** The bytes decode to the messages sent and not read; nothing else is on the connection. */
  lemma UnreadAre(link: Link)
    requires LinkOk(link)
    ensures link.read <= |link.sent| && Unread(link.bytes) == Ok(link.sent[link.read..])
    ensures ReceiveAll(link.bytes).1 == link.tail
  {
    var unread := link.sent[link.read..];
    CarriesAll(TextOf, link.sent, link.read, link.bytes, link.tail);
    assert All(Sendable, unread);
    TextsDecode(unread);
  }

  lemma TextsDecode(ms: seq<Message>)
    requires All(Sendable, ms)
    ensures Traverse(Decode, Texts(TextOf, ms)) == Ok(ms)
  {
    forall i | 0 <= i < |ms|
      ensures Decode(Texts(TextOf, ms)[i]) == Ok(ms[i])
    {
      TextDecodes(ms[i]);
    }
    TraverseOk(Decode, Texts(TextOf, ms), ms);
  }

  lemma TextDecodes(m: Message)
    requires Sendable(m)
    ensures Decode(TextOf(m)) == Ok(m)
  {
    SendableRoundTrip(m);
  }

  /** A registered display whose connection holds: its feed, complete. */
  lemma FeedComplete(s: Sys, c: Tid)
    requires Reached(s) && c in s.shared.displays && c in s.clients && InLoop(s.clients[c].pc)
             && !s.clients[c].link.broken
    ensures var client := s.clients[c];
            && client.feed.joined && FeedOk(client.feed, s.shared.log, true, client.queue.items, Owed(s, c))
            && LinkOk(client.link) && DisplayStream(client.link.sent) && client.link.sent != []
            && Updates(client.link.sent) + Hand(client.pc) == client.feed.taken
    ensures LegalLog(s.shared.log) && PointAt(s.shared.log).view == Visible(s.shared.server.orders)
    ensures forall m | m in s.shared.log :: IsUpdate(m)
  {
    ReachedKeeps(s);
    RegisteredAreAlive(s, c);
  }

  lemma DueAreUpdates(feed: Feed, log: seq<Message>, items: seq<Message>, owed: seq<Message>)
    requires feed.joined && FeedOk(feed, log, true, items, owed) && forall m | m in log :: IsUpdate(m)
    ensures forall m | m in items + owed :: IsUpdate(m)
  {
    var due := Due(feed, log, true);
    forall m | m in items + owed
      ensures IsUpdate(m)
    {
      var i :| 0 <= i < |items + owed| && (items + owed)[i] == m;
      assert Given(feed, items, owed)[|feed.taken| + i] == m;
      assert due[|feed.taken| + i] == m;
    }
  }

  /** Replication. In every reachable state, for every registered display whose connection has not
      failed: its bytes decode, and showing what they hold and then everything else that is on its
      way leads, without a protocol error, to exactly the server's orders. */
  lemma DisplaysReplicate(s: Sys, c: Tid)
    requires Reached(s) && c in s.shared.displays && c in s.clients
    requires InLoop(s.clients[c].pc) && !s.clients[c].link.broken
    ensures Unread(s.clients[c].link.bytes).Ok? && ReceiveAll(s.clients[c].link.bytes).1 == ""
    ensures ScreenAfter(s.clients[c].link.screen, Outstanding(s, c, Unread(s.clients[c].link.bytes).value))
            == Running(Visible(s.shared.server.orders))
  {
    FeedComplete(s, c);
    var client := s.clients[c];
    UnreadAre(client.link);
    ReplicaOf(client.link, client.feed, s.shared.log, Hand(client.pc), client.queue.items, Owed(s, c));
    assert PointAt(s.shared.log).view == Visible(s.shared.server.orders);
  }

  /** What was sent and what is on its way add up to what is due. */
  lemma UpdatesAreDue(sent: seq<Message>, feed: Feed, log: seq<Message>, hand: seq<Message>, items: seq<Message>,
                      owed: seq<Message>)
    requires feed.joined && FeedOk(feed, log, true, items, owed) && Updates(sent) + hand == feed.taken
    requires (forall m | m in log :: IsUpdate(m)) && (forall m | m in hand :: IsUpdate(m))
    ensures forall m | m in hand + items + owed :: IsUpdate(m)
    ensures Updates(sent + (hand + items + owed)) == Due(feed, log, true)
  {
    var rest := hand + items + owed;
    DueAreUpdates(feed, log, items, owed);
    Regroup(Updates(sent), hand, items, owed);
    UpdatesAll(rest);
    UpdatesAppend(sent, rest);
  }

  lemma Regroup<T>(a: seq<T>, b: seq<T>, c: seq<T>, d: seq<T>)
    ensures a + (b + c + d) == (a + b) + c + d
    ensures forall m | m in b + c + d :: m in b || m in c + d
  {
    assert b + c + d == b + (c + d);
  }

  lemma ReplicaOf(link: Link, feed: Feed, log: seq<Message>, hand: seq<Message>, items: seq<Message>,
                  owed: seq<Message>)
    requires LinkOk(link) && DisplayStream(link.sent) && link.sent != []
    requires feed.joined && FeedOk(feed, log, true, items, owed) && Updates(link.sent) + hand == feed.taken
    requires LegalLog(log) && (forall m | m in log :: IsUpdate(m)) && (forall m | m in hand :: IsUpdate(m))
    ensures ScreenAfter(link.screen, link.sent[link.read..] + (hand + items + owed)) == Running(PointAt(log).view)
  {
    var rest := hand + items + owed;
    UpdatesAreDue(link.sent, feed, log, hand, items, owed);
    var due := Due(feed, log, true);
    SnapshotThenLog(feed.snapshot, log, feed.start, |log|);
    assert log[..|log|] == log;
    StreamExtended(link.sent, rest);
    ScreenReplays(link.sent + rest);
    ScreenSplit(link.sent, link.read, rest);
  }

  lemma ScreenSplit(sent: seq<Message>, read: nat, rest: seq<Message>)
    requires read <= |sent|
    ensures ScreenAfter(LoggingIn, sent + rest) ==
            ScreenAfter(ScreenAfter(LoggingIn, sent[..read]), sent[read..] + rest)
  {
    assert sent + rest == sent[..read] + (sent[read..] + rest);
    ScreenAppend(LoggingIn, sent[..read], sent[read..] + rest);
  }

  lemma StreamExtended(sent: seq<Message>, rest: seq<Message>)
    requires DisplayStream(sent) && sent != [] && forall m | m in rest :: IsUpdate(m)
    ensures DisplayStream(sent + rest) && sent + rest != []
  {
    forall i | 1 <= i < |sent + rest|
      ensures IsUpdate((sent + rest)[i]) || (sent + rest)[i] == HEARTBEAT
    {
      if i >= |sent| {
        assert (sent + rest)[i] in rest;
      }
    }
  }

  lemma NothingToRead()
    ensures Unread("") == Ok([])
  {
    assert ReceiveAll("") == ([], "");
  }

  /** In a quiet state, the display shows the server's orders. */
  lemma QuietDisplaysAgree(s: Sys, c: Tid)
    requires Reached(s) && s.shared.lock.None? && c in s.shared.displays && c in s.clients
    requires s.clients[c].pc.Waiting? && s.clients[c].queue.items == [] && s.clients[c].link.bytes == ""
             && !s.clients[c].link.broken
    ensures s.clients[c].link.screen == Running(s.shared.server.orders)
  {
    DisplaysReplicate(s, c);
    RequestsAreLinear(s);
    StoredAreVisible(s.shared.server);
    NothingToRead();
    NothingOutstanding(s, c);
    NothingChanges(s.clients[c].link.screen);
  }

  lemma NothingOutstanding(s: Sys, c: Tid)
    requires c in s.clients && s.shared.lock.None? && s.clients[c].pc.Waiting? && s.clients[c].queue.items == []
    ensures Outstanding(s, c, []) == []
  {
    assert Hand(s.clients[c].pc) == [];
    assert Owed(s, c) == [];
  }

  lemma NothingChanges(screen: Screen)
    ensures ScreenAfter(screen, []) == screen
  {
  }

  lemma StoredAreVisible(s: State)
    requires Inv(s)
    ensures Visible(s.orders) == s.orders
  {
    AllVisible(s.orders);
  }

  // ----- prefixes -----

  /** The updates that a connection has shown. */
  function ShownUpdates(c: Client): seq<Message>
    requires c.link.read <= |c.link.sent|
  {
    Updates(c.link.sent[..c.link.read])
  }

  /** How far along the log the display is, once it has shown its snapshot. */
  function Position(c: Client): int
    requires c.link.read <= |c.link.sent|
  {
    c.feed.start + |ShownUpdates(c)| - |c.feed.snapshot|
  }

  predicate SnapshotShown(c: Client)
    requires c.link.read <= |c.link.sent|
  {
    c.feed.joined && c.link.read > 0 && |ShownUpdates(c)| >= |c.feed.snapshot|
  }

  /** What a display shows: nothing yet, a part of its snapshot, or the orders at a point of the log. */
  ghost predicate ShowsPrefix(c: Client, log: seq<Message>)
    requires c.link.read <= |c.link.sent|
  {
    if c.link.read == 0 then c.link.screen == LoggingIn
    else if SnapshotShown(c) then
      c.feed.start <= Position(c) <= |log| && c.link.screen == Running(PointAt(log[..Position(c)]).view)
    else
      ShownUpdates(c) <= c.feed.snapshot && c.link.screen == Shown(Replay(map[], ShownUpdates(c)))
          && c.link.screen.Running?
  }

  lemma {:induction false} ReplayPrefixOk(a: seq<Message>, b: seq<Message>)
    requires a <= b && Replay(map[], b).Ok?
    ensures Replay(map[], a).Ok?
  {
    assert b == a + b[|a|..];
    ReplayAppend(map[], a, b[|a|..]);
  }

  /** Prefix consistency. In every reachable state, every display ever connected, also one that
      has lost its connection or left, shows the server's orders at some point of the log, once it
      has shown its snapshot, and a part of the snapshot before; and no display program has
      stopped with a protocol error. */
  lemma DisplaysShowPrefixes(s: Sys, c: Tid)
    requires Reached(s) && c in s.clients && s.clients[c].talk.mode == DISPLAY
    ensures s.clients[c].link.read <= |s.clients[c].link.sent|
    ensures ShowsPrefix(s.clients[c], s.shared.log)
    ensures s.clients[c].link.screen != Stopped
  {
    ReachedKeeps(s);
    var client := s.clients[c];
    assert ClientOk(client);
    PrefixOf(client, s.shared.log, c in s.shared.displays, client.queue.items, Owed(s, c));
  }

  /** The updates shown so far, as a part of what is due. */
  lemma ShownAreDue(c: Client, log: seq<Message>, present: bool, items: seq<Message>, owed: seq<Message>)
    requires c.link.read <= |c.link.sent| && Updates(c.link.sent) <= c.feed.taken
    requires FeedOk(c.feed, log, present, items, owed)
    ensures if c.feed.joined then Joined(c.feed, log, present)
            && ShownUpdates(c) <= Due(c.feed, log, present) else ShownUpdates(c) == []
  {
    var shown := ShownUpdates(c);
    UpdatesPrefix(c.link.sent, c.link.read, |c.link.sent|);
    assert c.link.sent[..|c.link.sent|] == c.link.sent;
    assert shown <= c.feed.taken;
    assert Given(c.feed, items, owed)[..|shown|] == shown;
  }

  lemma PrefixOf(c: Client, log: seq<Message>, present: bool, items: seq<Message>, owed: seq<Message>)
    requires LinkOk(c.link) && DisplayStream(c.link.sent) && Updates(c.link.sent) <= c.feed.taken
    requires LegalLog(log) && FeedOk(c.feed, log, present, items, owed)
    ensures c.link.read <= |c.link.sent| && ShowsPrefix(c, log) && c.link.screen != Stopped
  {
    ReadIsScreen(c.link);
    ShownAreDue(c, log, present, items, owed);
    ShownReplays(c, log, present);
    PrefixByParts(c, log);
  }

  /** A part of the snapshot, or all of it and a part of the log from there. */
  ghost predicate PartOfDue(feed: Feed, log: seq<Message>, shown: seq<Message>) {
    if |shown| < |feed.snapshot| then shown <= feed.snapshot
    else
      var p := feed.start + |shown| - |feed.snapshot|;
      feed.start <= p <= |log| && shown == feed.snapshot + log[feed.start..p]
  }

  lemma DueParts(feed: Feed, log: seq<Message>, present: bool, shown: seq<Message>)
    requires feed.start <= |log| && (present || feed.start <= feed.stop <= |log|) && shown <= Due(feed, log, present)
    ensures PartOfDue(feed, log, shown)
  {
    PrefixOfAppend(shown, feed.snapshot, log, feed.start, if present then |log| else feed.stop);
  }

  lemma ShownReplays(c: Client, log: seq<Message>, present: bool)
    requires c.link.read <= |c.link.sent| && LegalLog(log)
    requires if c.feed.joined then Joined(c.feed, log, present)
             && ShownUpdates(c) <= Due(c.feed, log, present) else ShownUpdates(c) == []
    ensures Replays(c, log)
  {
    if c.feed.joined {
      DueParts(c.feed, log, present, ShownUpdates(c));
      ReplayShown(c.feed, log, ShownUpdates(c));
    }
  }

  /** Where the shown updates lead. */
  ghost predicate Replays(c: Client, log: seq<Message>)
    requires c.link.read <= |c.link.sent|
  {
    && Replay(map[], ShownUpdates(c)).Ok?
    && if c.feed.joined && |ShownUpdates(c)| >= |c.feed.snapshot| then
         c.feed.start <= Position(c) <= |log| && Replay(map[], ShownUpdates(c)) == Ok(PointAt(log[..Position(c)]).view)
       else ShownUpdates(c) <= c.feed.snapshot
  }

  lemma ReadIsScreen(link: Link)
    requires LinkOk(link) && DisplayStream(link.sent)
    ensures link.read <= |link.sent|
    ensures link.screen == if link.read == 0 then LoggingIn else Shown(Replay(map[], Updates(link.sent[..link.read])))
  {
    if link.read > 0 {
      ScreenReplays(link.sent[..link.read]);
    }
  }

  lemma PrefixByParts(c: Client, log: seq<Message>)
    requires c.link.read <= |c.link.sent|
    requires c.link.screen == if c.link.read == 0 then LoggingIn else Shown(Replay(map[], ShownUpdates(c)))
    requires Replays(c, log)
    ensures ShowsPrefix(c, log) && c.link.screen != Stopped
  {
  }

  lemma ReplayShown(feed: Feed, log: seq<Message>, shown: seq<Message>)
    requires LegalLog(log) && Joined(feed, log, true) && PartOfDue(feed, log, shown)
    ensures Replay(map[], shown).Ok?
    ensures |shown| >= |feed.snapshot| ==>
            Replay(map[], shown) == Ok(PointAt(log[..feed.start + |shown| - |feed.snapshot|]).view)
  {
    if |shown| >= |feed.snapshot| {
      SnapshotThenLog(feed.snapshot, log, feed.start, feed.start + |shown| - |feed.snapshot|);
    } else {
      ReplayPrefixOk(shown, feed.snapshot);
    }
  }

  // ----- histories of views -----

  /** Monotonicity. From one reachable state to a later one, a display moves forward along one
      and the same log: the orders still shown have moved forward, and those newly shown are new. */
  lemma ViewsAdvance(s: Sys, es: seq<Event>, s': Sys, c: Tid)
    requires Reached(s) && Exec(s, es) == Some(s') && c in s.clients && s.clients[c].talk.mode == DISPLAY
    requires s.clients[c].link.read <= |s.clients[c].link.sent| && SnapshotShown(s.clients[c])
    ensures c in s'.clients && s'.clients[c].link.read <= |s'.clients[c].link.sent| && SnapshotShown(s'.clients[c])
    ensures var i, j := Position(s.clients[c]), Position(s'.clients[c]);
            && 0 <= i <= j <= |s'.shared.log|
            && s.clients[c].link.screen == Running(PointAt(s'.shared.log[..i]).view)
            && s'.clients[c].link.screen == Running(PointAt(s'.shared.log[..j]).view)
            && Advances(PointAt(s'.shared.log[..i]), PointAt(s'.shared.log[..j]))
  {
    RunsExtend(s, es, s');
    var a, b := s.clients[c], s'.clients[c];
    DisplaysShowPrefixes(s, c);
    DisplaysShowPrefixes(s', c);
    assert ClientLater(a, b);
    UpdatesPrefix(b.link.sent, a.link.read, b.link.read);
    assert b.link.sent[..a.link.read] == a.link.sent[..a.link.read];
    var i, j := Position(a), Position(b);
    assert s'.shared.log[..i] == s.shared.log[..i];
    LogIsLegal(s');
    LogAdvances(s'.shared.log, i, j);
  }

  /** An order that a display has shown and removed is not shown again. */
  lemma OrdersDoNotReappear(s: Sys, es1: seq<Event>, s1: Sys, es2: seq<Event>, s2: Sys, c: Tid, k: int)
    requires Reached(s) && Exec(s, es1) == Some(s1) && Exec(s1, es2) == Some(s2)
    requires c in s.clients && s.clients[c].talk.mode == DISPLAY
    requires s.clients[c].link.read <= |s.clients[c].link.sent| && SnapshotShown(s.clients[c])
    requires c in s1.clients
    requires s.clients[c].link.screen.Running? && k in s.clients[c].link.screen.view
    requires s1.clients[c].link.screen.Running? && k !in s1.clients[c].link.screen.view
    ensures c in s2.clients && s2.clients[c].link.screen.Running? && k !in s2.clients[c].link.screen.view
  {
    ViewsAdvance(s, es1, s1, c);
    RunsExtend(s, es1, s1);
    ViewsAdvance(s1, es2, s2, c);
    RunsExtend(s1, es2, s2);
    var i, j, l := Position(s.clients[c]), Position(s1.clients[c]), Position(s2.clients[c]);
    assert s2.shared.log[..i] == s1.shared.log[..i];
    LogIsLegal(s2);
    NeverReappears(s2.shared.log, i, j, l, k);
  }

  lemma LogIsLegal(s: Sys)
    requires Reached(s)
    ensures LegalLog(s.shared.log)
  {
    ReachedKeeps(s);
  }
}
