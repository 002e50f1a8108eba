/** Freedom from deadlock. The locks are nested: a thread may wait for a queue mutex while it
    holds the server mutex, and never the other way round. */
module MachineProgress {
  import opened Wrappers
  import opened Text
  import opened Machine
  import opened MachineLocks

  /** Some step of thread u can happen without anything new from a peer. */
  ghost predicate Enabled(s: Sys, u: Tid) {
    u in s.clients && exists e: Event ::
        e.t == u && !e.Arrive? && !e.ArriveError? && !e.Display? && !e.Accept? && Can(s, e)
  }

  /** The thread waits for its peer, or has ended. */
  predicate Resting(pc: Pc) {
    pc.Login? || pc.Idle? || pc.Gone?
  }

  /** The holder of the mutex that t is about to lock. */
  function Blocker(s: Sys, t: Tid): Option<Tid>
    requires t in s.clients
  {
    var pc := s.clients[t].pc;
    if pc.Want? then s.shared.lock
    else if pc.Permitted? then s.clients[t].queue.holder
    else if pc.Inside? && pc.owed != [] && pc.push == Ready
        && pc.owed[0].to in s.clients then s.clients[pc.owed[0].to].queue.holder
    else None
  }

  lemma {:induction false} EnumerationExists(displays: set<Tid>) returns (order: seq<Tid>)
    ensures Enumerates(order, displays)
    decreases |displays|
  {
    if c :| c in displays {
      var rest := EnumerationExists(displays - {c});
      order := [c] + rest;
    } else {
      order := [];
    }
  }

  lemma CanPush(s: Sys, t: Tid) returns (e: Event)
    requires Synchronized(s) && t in s.clients && s.clients[t].pc.Inside? && Blocker(s, t).None?
    requires s.clients[t].pc.owed != [] || s.clients[t].pc.push != Ready
    ensures PushEvent(e) && e.t == t && Can(s, e)
  {
    var pc := s.clients[t].pc;
    assert OwedAlive(pc, s.shared.displays);
    e := match pc.push
      case Ready => PushLock(t)
      case Locked => PushBack(t)
      case Filled(_) => PushUnlock(t)
      case Unlocked(_) => PushPost(t);
  }

  lemma CanProceed(s: Sys, t: Tid) returns (e: Event)
    requires Synchronized(s) && s.shared.server.next < INT_MAX
    requires t in s.clients && s.clients[t].pc.Inside? && s.clients[t].pc.owed == [] && s.clients[t].pc.push == Ready
    ensures e.Proceed? && e.t == t && Can(s, e)
  {
    var order := EnumerationExists(s.shared.displays);
    e := Proceed(t, order);
  }

  lemma CanSend(s: Sys, t: Tid)
    requires t in s.clients && (s.clients[t].pc.Answer? || s.clients[t].pc.Sending?)
    ensures Can(s, Send(t, 0))
  {
  }

  /** The display's own steps on its queue. */
  lemma CanPop(s: Sys, t: Tid) returns (e: Event)
    requires Synchronized(s) && t in s.clients && Blocker(s, t).None?
    requires var pc := s.clients[t].pc; pc.Waiting? || pc.Permitted? || pc.Popping? || pc.Popped?
    ensures e.t == t && (e.Timeout? || e.PopLock? || e.PopFront? || e.PopUnlock?) && Can(s, e)
  {
    e := match s.clients[t].pc
      case Waiting => Timeout(t)
      case Permitted => PopLock(t)
      case Popping => PopFront(t)
      case _ => PopUnlock(t);
  }

  lemma CanLock(s: Sys, t: Tid)
    requires t in s.clients && s.clients[t].pc.Want? && s.shared.lock.None?
    ensures Can(s, Lock(t))
  {
  }

  /** Every thread that is not resting can step, unless it waits for a mutex that is taken. The
      order id counter must not have run out. */
  lemma EnabledUnlessBlocked(s: Sys, t: Tid)
    requires Synchronized(s) && s.shared.server.next < INT_MAX
    requires t in s.clients && !Resting(s.clients[t].pc)
    ensures Enabled(s, t) || Blocker(s, t).Some?
  {
    if Blocker(s, t).None? {
      var pc := s.clients[t].pc;
      var e: Event;
      if pc.Inside? && (pc.owed != [] || pc.push != Ready) {
        e := CanPush(s, t);
      } else if pc.Inside? {
        e := CanProceed(s, t);
      } else if pc.Answer? || pc.Sending? {
        e := Send(t, 0);
        CanSend(s, t);
      } else if pc.Want? {
        e := Lock(t);
        CanLock(s, t);
      } else {
        e := CanPop(s, t);
      }
      EnabledBy(s, e);
    }
  }

  lemma EnabledBy(s: Sys, e: Event)
    requires e.t in s.clients && Can(s, e)
    requires !e.Arrive? && !e.ArriveError? && !e.Display? && !e.Accept?
    ensures Enabled(s, e.t)
  {
  }

  /** A thread that holds a queue mutex does not wait for any mutex. */
  lemma QueueHolderRuns(s: Sys, t: Tid, c: Tid)
    requires Synchronized(s) && s.shared.server.next < INT_MAX
    requires c in s.clients && s.clients[c].queue.holder == Some(t)
    ensures Enabled(s, t)
  {
    assert QueueLock(s, c);
    EnabledUnlessBlocked(s, t);
  }

  /** No deadlock: a thread that is not resting can step, or waits for one that can, or waits for
      the thread in the server's critical section, which waits for one that can. */
  lemma NoDeadlock(s: Sys, t: Tid)
    requires Synchronized(s) && s.shared.server.next < INT_MAX
    requires t in s.clients && !Resting(s.clients[t].pc)
    ensures Enabled(s, t)
            || (Blocker(s, t).Some? && var u := Blocker(s, t).value;
                Enabled(s, u)
                || (u in s.clients && s.shared.lock == Some(u) && Blocker(s, u).Some?
                   && Enabled(s, Blocker(s, u).value)))
  {
    EnabledUnlessBlocked(s, t);
    if Blocker(s, t).Some? {
      var u := Blocker(s, t).value;
      if s.clients[t].pc.Want? {
        EnabledUnlessBlocked(s, u);
        if Blocker(s, u).Some? {
          QueueHolderRuns(s, Blocker(s, u).value, s.clients[u].pc.owed[0].to);
        }
      } else {
        QueueHolderRuns(s, u, if s.clients[t].pc.Permitted? then t else s.clients[t].pc.owed[0].to);
      }
    }
  }

  // ----- critical sections end -----

  function StagesLeft(stage: Stage): nat {
    match stage
    case Begin => 2
    case Between => 1
    case End => 0
  }

  /** The statements of the pending pushes still to be executed. */
  function PushesLeft(pc: Pc): int
    requires pc.Inside?
  {
    4 * |pc.owed| + match pc.push
                    case Ready => 0
                    case Locked => -1
                    case Filled(_) => 2
                    case Unlocked(_) => 1
  }

  /** Every step of the thread inside the server's critical section, other than its display's,
      leads it nearer to its end; and only its own steps move it. */
  lemma CriticalSectionEnds(s: Sys, e: Event, s': Sys, h: Tid)
    requires Synchronized(s) && Step(s, e) == Some(s') && s.shared.lock == Some(h)
    ensures h in s.clients && h in s'.clients
    ensures var before, after := s.clients[h].pc, s'.clients[h].pc;
            if e.t != h || e.Display? then after == before
            else !after.Inside?
                 || StagesLeft(after.stage) < StagesLeft(before.stage)
                 || (after.stage == before.stage && 0 <= PushesLeft(after) < PushesLeft(before))
  {
    SynchronizedKept(s, e, s');
    if e.t == h {
      InsideMoves(s, e);
      StepQueues(s, e, s');
    }
  }

  lemma InsideMoves(s: Sys, e: Event)
    requires Can(s, e) && Own(s, e).pc.Inside?
    requires Own(s, e).pc.push == Locked ==> Own(s, e).pc.owed != []
    requires !EffectOf(s, e).value.shared.fault
    ensures var before, after := Own(s, e).pc, EffectOf(s, e).value.me.pc;
            if e.Display? then after == before
            else !after.Inside?
                 || StagesLeft(after.stage) < StagesLeft(before.stage)
                 || (after.stage == before.stage && 0 <= PushesLeft(after) < PushesLeft(before))
  {
  }
}
