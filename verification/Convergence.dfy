/** What the system reaches by itself: the server mutex is given up, and displays catch up. */
module Convergence {
  import opened Wrappers
  import opened Model
  import opened Text
  import opened WireProofs
  import opened Framing
  import opened Streams
  import opened Machine
  import opened MachineLocks
  import opened MachineProgress
  import opened MachineFlow
  import opened MachineLinks
  import opened MachineRuns
  import opened Replication

  lemma ExecOne(s: Sys, e: Event)
    ensures Exec(s, [e]) == Step(s, e)
  {
    assert [e][..0] == [];
    assert Exec(s, [e][..0]) == Some(s);
  }

  /** A step that leads to a reachable state, with events from there. */
  lemma ExecFirst(s: Sys, e: Event, s': Sys, es: seq<Event>)
    requires Reached(s) && Step(s, e) == Some(s')
    ensures Reached(s') && Exec(s, [e] + es) == Exec(s', es)
  {
    ExecOne(s, e);
    ReachedOn(s, [e], s');
    ExecAppend(s, [e], es);
  }

  // ----- the server mutex is given up -----

  /** The events of the threads inside the critical section and at their own queues. */
  predicate Internal(e: Event) {
    e.Proceed? || PushEvent(e) || e.PopFront? || e.PopUnlock?
  }

  ghost predicate Freeing(s: Sys, h: Tid) {
    && Reached(s) && s.shared.lock == Some(h) && h in s.clients && s.clients[h].pc.Inside?
    && (s.clients[h].pc.stage == Begin ==> s.shared.server.next < INT_MAX)
  }

  /** What the thread that h waits for has to do before it releases the queue mutex. */
  function Obstacle(s: Sys, h: Tid): nat
    requires h in s.clients
  {
    var b := Blocker(s, h);
    if b.Some? && b.value in s.clients then (if s.clients[b.value].pc.Popping? then 2 else 1) else 0
  }

  /** The lexicographic distance to the end of the critical section. */
  ghost predicate Nearer(s: Sys, s': Sys, h: Tid)
    requires h in s.clients && s.clients[h].pc.Inside? && h in s'.clients && s'.clients[h].pc.Inside?
  {
    var before, after := s.clients[h].pc, s'.clients[h].pc;
    || StagesLeft(after.stage) < StagesLeft(before.stage)
    || (after.stage == before.stage && 0 <= PushesLeft(after) < PushesLeft(before))
    || (after == before && Obstacle(s', h) < Obstacle(s, h))
  }

  lemma ProceedOn(s: Sys, t: Tid) returns (e: Event)
    requires Synchronized(s) && t in s.clients && s.clients[t].pc.Inside?
    requires s.clients[t].pc.owed == [] && s.clients[t].pc.push == Ready
    requires s.clients[t].pc.stage == Begin ==> s.shared.server.next < INT_MAX
    ensures e.Proceed? && e.t == t && Can(s, e)
  {
    var order := EnumerationExists(s.shared.displays);
    e := Proceed(t, order);
  }

  lemma OwnEvent(s: Sys, h: Tid) returns (e: Event)
    requires Synchronized(s) && h in s.clients && s.clients[h].pc.Inside? && Blocker(s, h).None?
    requires s.clients[h].pc.stage == Begin ==> s.shared.server.next < INT_MAX
    ensures e.t == h && (e.Proceed? || PushEvent(e)) && Can(s, e)
    ensures PushEvent(e) || s.clients[h].pc.owed == []
  {
    var pc := s.clients[h].pc;
    if pc.owed != [] || pc.push != Ready {
      e := CanPush(s, h);
    } else {
      e := ProceedOn(s, h);
    }
  }

  lemma CanIsStep(s: Sys, e: Event) returns (s': Sys)
    requires Can(s, e)
    ensures Step(s, e) == Some(s')
  {
    s' := Step(s, e).value;
  }

  /** A push leaves the server's data, and the other steps of the holder leave the first stage. */
  lemma LeavesBegin(s: Sys, e: Event)
    requires Can(s, e) && Own(s, e).pc.Inside? && (e.Proceed? || PushEvent(e))
    ensures var pc := EffectOf(s, e).value.me.pc;
            pc.Inside? && pc.stage == Begin ==>
              Own(s, e).pc.stage == Begin && EffectOf(s, e).value.shared.server == s.shared.server
  {
    if PushEvent(e) {
      PushKeepsServer(s, e, s.clients[e.t], EffectOf(s, e).value);
    }
  }

  lemma PushKeepsServer(s: Sys, e: Event, c: Client, eff: Effect)
    requires PushEvent(e) && StepPush(s, e, c) == Some(eff) && c.pc.Inside?
    ensures eff.shared.server == s.shared.server && eff.me.pc.Inside? && eff.me.pc.stage == c.pc.stage
  {
  }

  lemma OwnStep(s: Sys, h: Tid) returns (e: Event, s': Sys)
    requires Freeing(s, h) && Blocker(s, h).None?
    ensures Internal(e) && Step(s, e) == Some(s')
    ensures s'.shared.lock.None? || (Freeing(s', h) && Nearer(s, s', h))
  {
    ReachedKeeps(s);
    e := OwnEvent(s, h);
    s' := CanIsStep(s, e);
    ExecFirst(s, e, s', []);
    OwnStepEnds(s, e, s', h);
  }

  lemma OwnStepEnds(s: Sys, e: Event, s': Sys, h: Tid)
    requires Synchronized(s) && Step(s, e) == Some(s') && s.shared.lock == Some(h) && e.t == h
    requires h in s.clients && s.clients[h].pc.Inside? && (e.Proceed? || PushEvent(e))
    requires s.clients[h].pc.stage == Begin ==> s.shared.server.next < INT_MAX
    ensures h in s'.clients
    ensures s'.shared.lock.None? || (s'.shared.lock == Some(h) && s'.clients[h].pc.Inside?)
    ensures s'.clients[h].pc.Inside? ==>
              Nearer(s, s', h) && (s'.clients[h].pc.stage == Begin ==> s'.shared.server.next < INT_MAX)
  {
    CriticalSectionEnds(s, e, s', h);
    LeavesBegin(s, e);
    LockAfter(s, e, s', h);
  }

  lemma LockAfter(s: Sys, e: Event, s': Sys, h: Tid)
    requires Synchronized(s) && Step(s, e) == Some(s') && e.t == h && s.shared.lock == Some(h)
    ensures h in s'.clients && s'.shared.server == EffectOf(s, e).value.shared.server
    ensures s'.clients[h].pc == EffectOf(s, e).value.me.pc
    ensures if s'.clients[h].pc.Inside? then s'.shared.lock == Some(h) else s'.shared.lock == None
  {
    StepVia(s, e, s');
    SynchronizedKept(s, e, s');
  }

  /** The thread that h waits for pops a message of its own. */
  lemma PopperOf(s: Sys, h: Tid)
    requires Synchronized(s) && h in s.clients && s.clients[h].pc.Inside? && Blocker(s, h).Some?
    ensures var u := Blocker(s, h).value;
            && u in s.clients && u != h && s.clients[h].pc.owed != [] && s.clients[h].pc.owed[0].to == u
            && s.clients[h].pc.push == Ready && s.clients[u].queue.holder == Some(u)
            && (s.clients[u].pc.Popping? || s.clients[u].pc.Popped?)
            && (s.clients[u].pc.Popping? ==> s.clients[u].queue.items != [])
  {
    var to := s.clients[h].pc.owed[0].to;
    QueueHolderPlace(s, to);
    assert QueueLock(s, to);
    assert |s.clients[to].queue.items| >= Unpopped(s.clients[to].pc);
  }

  lemma PopperStep(s: Sys, h: Tid) returns (e: Event, s': Sys)
    requires Freeing(s, h) && Blocker(s, h).Some?
    ensures Internal(e) && Step(s, e) == Some(s')
    ensures Freeing(s', h) && Nearer(s, s', h)
  {
    ReachedKeeps(s);
    PopperOf(s, h);
    var u := Blocker(s, h).value;
    var me := PoppedOn(s.clients[u]);
    e := if s.clients[u].pc.Popping? then PopFront(u) else PopUnlock(u);
    PopEffect(s, e, u);
    s' := StepMine(s, e, me);
    ExecFirst(s, e, s', []);
    PoppedNearer(s, s', h, u);
  }

  lemma PoppedNearer(s: Sys, s': Sys, h: Tid, u: Tid)
    requires h in s.clients && s.clients[h].pc.Inside? && Blocker(s, h) == Some(u) && u in s.clients && u != h
    requires s.clients[h].pc.owed != [] && s.clients[h].pc.owed[0].to == u && s.clients[h].pc.push == Ready
    requires s.clients[u].pc.Popped? || (s.clients[u].pc.Popping? && s.clients[u].queue.items != [])
    requires s' == Sys(s.users, s.shared, s.clients[u := PoppedOn(s.clients[u])])
    ensures s'.clients[h] == s.clients[h] && Nearer(s, s', h)
  {
  }

  /** The client after its next step at its own queue. */
  function PoppedOn(c: Client): Client
    requires c.pc.Popped? || (c.pc.Popping? && c.queue.items != [])
  {
    if c.pc.Popped? then c.(pc := Sending(c.pc.msg), queue := c.queue.(holder := None))
    else
      c.(pc := Popped(c.queue.items[0]), queue := c.queue.(items := c.queue.items[1..]),
         feed := c.feed.(taken := c.feed.taken + [c.queue.items[0]]))
  }

  lemma PopEffect(s: Sys, e: Event, u: Tid)
    requires u in s.clients && (s.clients[u].pc.Popped? || (s.clients[u].pc.Popping? && s.clients[u].queue.items != []))
    requires e == if s.clients[u].pc.Popping? then PopFront(u) else PopUnlock(u)
    ensures EffectOf(s, e) == Some(Effect(PoppedOn(s.clients[u]), None, s.shared))
  {
  }

  /** A step that changes its own client only. */
  lemma StepMine(s: Sys, e: Event, me: Client) returns (s': Sys)
    requires e.t in s.clients && !e.Accept? && EffectOf(s, e) == Some(Effect(me, None, s.shared))
    ensures Step(s, e) == Some(s') && s' == Sys(s.users, s.shared, s.clients[e.t := me])
  {
    s' := Sys(s.users, s.shared, s.clients[e.t := me]);
  }

  /** A held server mutex is given up after finitely many steps of the thread that holds it and of
      threads at their own queues, whatever all other threads do or fail to do. */
  lemma MutexIsFreed(s: Sys, h: Tid) returns (es: seq<Event>)
    requires Freeing(s, h)
    ensures forall i | 0 <= i < |es| :: Internal(es[i])
    ensures Exec(s, es).Some? && Exec(s, es).value.shared.lock.None?
    decreases StagesLeft(s.clients[h].pc.stage), PushesLeft(s.clients[h].pc), Obstacle(s, h)
  {
    var e, s';
    if Blocker(s, h).None? {
      e, s' := OwnStep(s, h);
    } else {
      e, s' := PopperStep(s, h);
    }
    if s'.shared.lock.None? {
      es := [e];
      ExecOne(s, e);
    } else {
      var rest := MutexIsFreed(s', h);
      es := [e] + rest;
      ExecFirst(s, e, s', rest);
    }
  }

  // ----- displays catch up -----

  /** The client is in its loop, and what it holds and has queued fits. */
  ghost predicate Passing(c: Client) {
    && (c.pc.Waiting? || c.pc.Permitted? || c.pc.Popping? || c.pc.Popped? || c.pc.Sending?)
    && !c.link.broken
    && (Carried(c.pc).Some? ==> Fits(Carried(c.pc).value))
    && forall i | 0 <= i < |c.queue.items| :: Fits(c.queue.items[i])
  }

  ghost predicate CatchingUp(s: Sys, c: Tid) {
    Reached(s) && s.shared.lock.None? && c in s.shared.displays && c in s.clients && Passing(s.clients[c])
  }

  /** The steps that the client's thread needs to pass on all that it has. */
  function StepsLeft(c: Client): int {
    6 * (|c.queue.items| - Unpopped(c.pc)) +
    match c.pc
    case Permitted => 5
    case Popping => 4
    case Popped(_) => 3
    case Sending(_) => 2
    case _ => 0
  }

  function NextEvent(c: Client, t: Tid): Event {
    match c.pc
    case Permitted => PopLock(t)
    case Popping => PopFront(t)
    case Popped(_) => PopUnlock(t)
    case Sending(m) => Send(t, if Frame(TextOf(m)).Ok? then |Frame(TextOf(m)).value| else 0)
    case _ => Take(t)
  }

  /** What the invariants give for the next step of the client's thread. */
  ghost predicate CanGoOn(c: Client) {
    && |c.queue.items| == c.queue.avail + Unpopped(c.pc)
    && (c.pc.Permitted? ==> c.queue.holder.None?)
  }

  lemma NextIsReady(s: Sys, c: Tid)
    requires Synchronized(s) && s.shared.lock.None? && c in s.clients
    ensures CanGoOn(s.clients[c])
  {
    assert QueueLock(s, c);
  }

  lemma SendAll(link: Link, m: Message)
    requires Fits(m) && !link.broken
    ensures Frame(TextOf(m)).Ok?
    ensures var frame := Frame(TextOf(m)).value;
            Transmit(link, m, |frame|) == Some((link.(bytes := link.bytes + frame, sent := link.sent + [m]), true))
  {
    FrameRoundTrip(TextOf(m), "");
    SendableEncodes(m);
  }

  lemma NextEffect(s: Sys, t: Tid) returns (me: Client)
    requires t in s.clients && Passing(s.clients[t]) && CanGoOn(s.clients[t])
    requires !(s.clients[t].pc.Waiting? && s.clients[t].queue.items == [])
    ensures EffectOf(s, NextEvent(s.clients[t], t)) == Some(Effect(me, None, s.shared))
    ensures Passing(me) && 0 <= StepsLeft(me) < StepsLeft(s.clients[t])
  {
    var c := s.clients[t];
    if c.pc.Sending? {
      SendAll(c.link, c.pc.msg);
    }
    me := EffectOf(s, NextEvent(c, t)).value.me;
  }

  /** The events by which a display catches up: its own thread's, and its program's. */
  predicate Passive(e: Event, c: Tid) {
    e.t == c && (e.Take? || e.PopLock? || e.PopFront? || e.PopUnlock? || e.Send? || e.Display?)
  }

  lemma PassOn(s: Sys, c: Tid) returns (es: seq<Event>, s': Sys)
    requires CatchingUp(s, c)
    ensures forall i | 0 <= i < |es| :: Passive(es[i], c)
    ensures Exec(s, es) == Some(s') && CatchingUp(s', c) && s'.shared == s.shared
    ensures s'.clients[c].pc.Waiting? && s'.clients[c].queue.items == []
    decreases StepsLeft(s.clients[c])
  {
    var me := s.clients[c];
    if me.pc.Waiting? && me.queue.items == [] {
      es, s' := [], s;
    } else {
      var e, next := PassStep(s, c);
      var rest;
      rest, s' := PassOn(next, c);
      ExecFirst(s, e, next, rest);
      es := [e] + rest;
    }
  }

  lemma PassStep(s: Sys, c: Tid) returns (e: Event, s': Sys)
    requires CatchingUp(s, c) && !(s.clients[c].pc.Waiting? && s.clients[c].queue.items == [])
    ensures Passive(e, c) && Step(s, e) == Some(s') && CatchingUp(s', c) && s'.shared == s.shared
    ensures 0 <= StepsLeft(s'.clients[c]) < StepsLeft(s.clients[c])
  {
    ReachedKeeps(s);
    NextIsReady(s, c);
    e := NextEvent(s.clients[c], c);
    var me := NextEffect(s, c);
    s' := StepMine(s, e, me);
    ExecFirst(s, e, s', []);
  }

  lemma DisplayCanRead(s: Sys, c: Tid)
    requires CatchingUp(s, c) && s.clients[c].link.read < |s.clients[c].link.sent|
    ensures !Blocked(s.clients[c].link.bytes) && s.clients[c].link.screen != Stopped
    ensures ReadFrame(s.clients[c].link).read == s.clients[c].link.read + 1
    ensures ReadFrame(s.clients[c].link).sent == s.clients[c].link.sent && !ReadFrame(s.clients[c].link).broken
  {
    RegisteredAreAlive(s, c);
    DisplaysShowPrefixes(s, c);
    LinkOfReached(s, c);
    var link := s.clients[c].link;
    CarriesMore(TextOf, link.sent, link.read, link.bytes, link.tail);
    ReadKeeps(link);
  }

  lemma LinkOfReached(s: Sys, c: Tid)
    requires Reached(s) && c in s.clients
    ensures LinkOk(s.clients[c].link) && s.clients[c].link.read <= |s.clients[c].link.sent|
  {
    ReachedKeeps(s);
    assert ClientOk(s.clients[c]);
  }

  lemma ReadStep(s: Sys, c: Tid) returns (s': Sys)
    requires CatchingUp(s, c) && s.clients[c].link.read < |s.clients[c].link.sent|
    ensures Step(s, Display(c)) == Some(s') && CatchingUp(s', c) && s'.shared == s.shared
    ensures s'.clients[c] == s.clients[c].(link := s'.clients[c].link)
    ensures s'.clients[c].link.read == s.clients[c].link.read + 1 && s'.clients[c].link.sent == s.clients[c].link.sent
  {
    DisplayCanRead(s, c);
    s' := StepMine(s, Display(c), s.clients[c].(link := ReadFrame(s.clients[c].link)));
    ExecFirst(s, Display(c), s', []);
  }

  lemma ReadAll(s: Sys, c: Tid) returns (es: seq<Event>, s': Sys)
    requires CatchingUp(s, c) && s.clients[c].pc.Waiting? && s.clients[c].queue.items == []
    ensures forall i | 0 <= i < |es| :: Passive(es[i], c)
    ensures Exec(s, es) == Some(s') && CatchingUp(s', c) && s'.shared == s.shared
    ensures s'.clients[c].pc.Waiting? && s'.clients[c].queue.items == [] && s'.clients[c].link.bytes == ""
    decreases |s.clients[c].link.sent| - s.clients[c].link.read
  {
    LinkOfReached(s, c);
    var link := s.clients[c].link;
    if link.read == |link.sent| {
      NothingUnread(TextOf, link.sent, link.read, link.bytes, link.tail);
      es, s' := [], s;
    } else {
      var next := ReadStep(s, c);
      var rest;
      rest, s' := ReadAll(next, c);
      ExecFirst(s, Display(c), next, rest);
      es := [Display(c)] + rest;
    }
  }

  /** Convergence. From every reachable state in which the server mutex is free, a registered display
      whose connection holds, and whose outstanding messages fit, comes to show exactly the stored
      orders, by steps of its own thread and program alone. */
  lemma DisplaysConverge(s: Sys, c: Tid) returns (es: seq<Event>)
    requires CatchingUp(s, c)
    ensures forall i | 0 <= i < |es| :: Passive(es[i], c)
    ensures Exec(s, es).Some? && Exec(s, es).value.shared == s.shared && c in Exec(s, es).value.clients
    ensures Exec(s, es).value.clients[c].link.screen == Running(s.shared.server.orders)
  {
    var passed, mid := PassOn(s, c);
    var shown, end := ReadAll(mid, c);
    es := passed + shown;
    ExecAppend(s, passed, shown);
    QuietDisplaysAgree(end, c);
  }
}
