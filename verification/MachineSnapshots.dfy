/** What a display is sent when it joins, over whole runs. */
module MachineSnapshots {
  import opened Wrappers
  import opened ServerSpec
  import opened ServerLaws
  import opened Machine
  import opened MachineLocks
  import opened MachineLog
  import opened MachineFlow
  import opened MachineLeaving
  import opened MachineRuns

  /** The snapshot shows the orders stored after j requests, and the feed goes on with the broadcasts of
      the requests after them. */
  ghost predicate TakenAt(served: seq<Request>, feed: Feed, j: nat) {
    && j <= |served|
    && feed.snapshot == Snapshot(Run(INITIAL, served[..j]).orders)
    && feed.start == |Log(INITIAL, served[..j])|
  }

  ghost predicate FromRun(served: seq<Request>, feed: Feed) {
    exists j: nat :: TakenAt(served, feed, j)
  }

  ghost predicate SnapshotsFromRuns(s: Sys) {
    forall c | c in s.clients && s.clients[c].feed.joined :: FromRun(s.shared.served, s.clients[c].feed)
  }

  lemma FromRunLater(served: seq<Request>, served': seq<Request>, feed: Feed, feed': Feed)
    requires FromRun(served, feed) && served <= served'
    requires feed'.snapshot == feed.snapshot && feed'.start == feed.start
    ensures FromRun(served', feed')
  {
    var j: nat :| TakenAt(served, feed, j);
    assert served'[..j] == served[..j];
    assert TakenAt(served', feed', j);
  }

  /** Only a registration makes a client joined, and it takes its snapshot of what is stored. */
  lemma JoinsBy(s: Sys, e: Event)
    requires Can(s, e) && !Own(s, e).feed.joined && EffectOf(s, e).value.me.feed.joined
    ensures Own(s, e).pc.Inside? && Own(s, e).pc.job.Join? && EffectOf(s, e).value.shared.served == s.shared.served
    ensures EffectOf(s, e).value.me.feed.snapshot == Snapshot(s.shared.server.orders)
    ensures EffectOf(s, e).value.me.feed.start == |s.shared.log|
  {
    if e.Display? {
      DisplayKeepsFeed(s, e);
    } else if PushEvent(e) {
      PushLeaves(s, e, s.clients[e.t], EffectOf(s, e).value);
    }
  }

  lemma DisplayKeepsFeed(s: Sys, e: Event)
    requires Can(s, e) && e.Display?
    ensures EffectOf(s, e).value.me.feed == Own(s, e).feed
  {
  }

  lemma JoinedFromRun(s: Sys, e: Event, s': Sys)
    requires Synchronized(s) && Recorded(s) && Step(s, e) == Some(s')
    requires !Own(s, e).feed.joined && e.t in s'.clients && s'.clients[e.t].feed.joined
    ensures FromRun(s'.shared.served, s'.clients[e.t].feed)
  {
    StepVia(s, e, s');
    JoinsBy(s, e);
    JoinerSees(s, e.t);
    StoredNow(s.shared.served, s'.clients[e.t].feed);
  }

  lemma StoredNow(served: seq<Request>, feed: Feed)
    requires feed.snapshot == Snapshot(Run(INITIAL, served).orders) && feed.start == |Log(INITIAL, served)|
    ensures FromRun(served, feed)
  {
    assert served[..|served|] == served;
    assert TakenAt(served, feed, |served|);
  }

  lemma JoinerSees(s: Sys, t: Tid)
    requires Synchronized(s) && Recorded(s) && t in s.clients && s.clients[t].pc.Inside? && s.clients[t].pc.job.Join?
    ensures s.shared.server == Run(INITIAL, s.shared.served) && s.shared.log == Log(INITIAL, s.shared.served)
  {
  }

  lemma SnapshotsKept(s: Sys, e: Event, s': Sys)
    requires SysInv(s) && SnapshotsFromRuns(s) && Step(s, e) == Some(s')
    ensures SnapshotsFromRuns(s')
  {
    StepLater(s, e, s');
    StepIsFramed(s, e, s');
    if !Own(s, e).feed.joined && s'.clients[e.t].feed.joined {
      JoinedFromRun(s, e, s');
    }
    SnapshotsByParts(s, e, s');
  }

  lemma SnapshotsByParts(s: Sys, e: Event, s': Sys)
    requires SnapshotsFromRuns(s) && Later(s, s') && Framed(s, e, s')
    requires !Own(s, e).feed.joined && s'.clients[e.t].feed.joined ==>
               FromRun(s'.shared.served, s'.clients[e.t].feed)
    ensures SnapshotsFromRuns(s')
  {
    forall c | c in s'.clients && s'.clients[c].feed.joined
      ensures FromRun(s'.shared.served, s'.clients[c].feed)
    {
      assert c != e.t ==> c in s.clients && s'.clients[c] == s.clients[c].(queue := s'.clients[c].queue);
      if c in s.clients && s.clients[c].feed.joined {
        assert ClientLater(s.clients[c], s'.clients[c]);
        FromRunLater(s.shared.served, s'.shared.served, s.clients[c].feed, s'.clients[c].feed);
      }
    }
  }

  lemma {:induction false} RunSnapshots(users: set<string>, es: seq<Event>)
    requires Exec(Init(users), es).Some?
    ensures SnapshotsFromRuns(Exec(Init(users), es).value)
  {
    if es != [] {
      var init := es[..|es| - 1];
      RunSnapshots(users, init);
      RunKeeps(users, init);
      SnapshotsKept(Exec(Init(users), init).value, es[|es| - 1], Exec(Init(users), es).value);
    }
  }

  lemma SnapshotsOfReached(s: Sys)
    requires Reached(s)
    ensures SnapshotsFromRuns(s)
  {
    var users, es :| Exec(Init(users), es) == Some(s);
    RunSnapshots(users, es);
  }

  /** A display is due, first, the orders stored after some number j of requests, one message for each,
      by increasing key; and from there on every broadcast of the requests after those. */
  lemma JoinersSeeTheOrders(s: Sys, c: Tid) returns (j: nat, keys: seq<int>)
    requires Reached(s) && c in s.clients && s.clients[c].feed.joined
    ensures j <= |s.shared.served|
    ensures Lists(Run(INITIAL, s.shared.served[..j]).orders, keys, s.clients[c].feed.snapshot)
    ensures s.clients[c].feed.start == |Log(INITIAL, s.shared.served[..j])|
  {
    SnapshotsOfReached(s);
    j :| TakenAt(s.shared.served, s.clients[c].feed, j);
    keys := SnapshotLists(Run(INITIAL, s.shared.served[..j]).orders);
  }
}
