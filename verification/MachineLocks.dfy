/** Mutual exclusion, semaphore counting, lifetimes and progress in every reachable state. */
module MachineLocks {
  import opened Wrappers
  import opened Machine

  // ----- what a step may touch -----

  predicate PushEvent(e: Event) {
    e.PushLock? || e.PushBack? || e.PushUnlock? || e.PushPost?
  }

  /** The event can happen. */
  ghost predicate Can(s: Sys, e: Event) {
    (e.t in s.clients <==> !e.Accept?) && EffectOf(s, e).Some?
  }

  /** A step changes its own thread's client, and of the others at most one message queue. */
  ghost predicate Framed(s: Sys, e: Event, s': Sys) {
    && s'.clients.Keys == s.clients.Keys + {e.t}
    && (e.t in s.clients <==> !e.Accept?)
    && (forall c | c in s.clients && c != e.t :: s'.clients[c] == s.clients[c].(queue := s'.clients[c].queue))
    && (forall c | c in s.clients && c != e.t && !PushEvent(e) :: s'.clients[c] == s.clients[c])
  }

  lemma OnlyPushTouchesOthers(s: Sys, e: Event)
    requires Can(s, e) && !PushEvent(e)
    ensures EffectOf(s, e).value.queue.None?
  {
  }

  lemma StepIsFramed(s: Sys, e: Event, s': Sys)
    requires Step(s, e) == Some(s')
    ensures Framed(s, e, s')
  {
    if !PushEvent(e) {
      OnlyPushTouchesOthers(s, e);
    }
  }

  /** The acting thread's client before the step. */
  function Own(s: Sys, e: Event): Client {
    if e.t in s.clients then s.clients[e.t] else FRESH
  }

  // ----- the server mutex -----

  /** The thread inside the server's critical section is the holder of its mutex. */
  ghost predicate ServerLock(s: Sys) {
    && (s.shared.lock.Some? ==> s.shared.lock.value in s.clients && s.clients[s.shared.lock.value].pc.Inside?)
    && (forall t | t in s.clients && s.clients[t].pc.Inside? :: s.shared.lock == Some(t))
    && (forall t | t in s.clients && s.clients[t].pc.Inside? ::
       s.clients[t].pc.push == Locked ==> s.clients[t].pc.owed != [])
  }

  /** How one step moves the server mutex. */
  predicate LockMoved(t: Tid, before: Pc, after: Pc, lock: Option<Tid>, lock': Option<Tid>) {
    && (after.Inside? ==> lock' == Some(t))
    && (lock' == lock || lock' == None || lock == None)
    && (lock' == lock ==> (before.Inside? <==> after.Inside?))
    && (lock' != lock ==> before.Inside? || (lock == None && after.Inside?))
    && (after.Inside? && after.push == Locked ==> after.owed != [])
  }

  lemma LockMoves(s: Sys, e: Event)
    requires Can(s, e)
    requires Own(s, e).pc.Inside? ==> s.shared.lock == Some(e.t)
    requires Own(s, e).pc.Inside? && Own(s, e).pc.push == Locked ==> Own(s, e).pc.owed != []
    ensures LockMoved(e.t, Own(s, e).pc, EffectOf(s, e).value.me.pc, s.shared.lock, EffectOf(s, e).value.shared.lock)
  {
  }

  lemma ServerLockKept(s: Sys, e: Event, s': Sys)
    requires ServerLock(s) && Framed(s, e, s')
    requires LockMoved(e.t, Own(s, e).pc, s'.clients[e.t].pc, s.shared.lock, s'.shared.lock)
    ensures ServerLock(s')
  {
  }

  // ----- the queue mutexes -----

  /** Thread t, at pc, holds the mutex of c's queue. */
  predicate Holds(t: Tid, pc: Pc, c: Tid) {
    if pc.Inside? then (pc.push == Locked && pc.owed != [] && pc.owed[0].to == c) || pc.push == Filled(c)
    else t == c && (pc.Popping? || pc.Popped?)
  }

  /** The mutex of c's queue is held by the thread that is at a point where it holds it, if any. */
  ghost predicate QueueLock(s: Sys, c: Tid)
    requires c in s.clients
  {
    && (forall t | t in s.clients && Holds(t, s.clients[t].pc, c) :: s.clients[c].queue.holder == Some(t))
    && var h := s.clients[c].queue.holder; h.Some? ==> h.value in s.clients && Holds(h.value, s.clients[h.value].pc, c)
  }

  ghost predicate QueueLocks(s: Sys) {
    && (forall c | c in s.clients :: QueueLock(s, c))
    && (forall t, c | t in s.clients && Holds(t, s.clients[t].pc, c) :: c in s.clients)
  }

  /** c's queue before a step. */
  function OldQueue(s: Sys, c: Tid): Queue {
    if c in s.clients then s.clients[c].queue else FRESH.queue
  }

  function NewQueue(s: Sys, e: Event, eff: Effect, c: Tid): Queue {
    if eff.queue.Some? && eff.queue.value.0 == c then eff.queue.value.1
    else if c == e.t then eff.me.queue
    else OldQueue(s, c)
  }

  /** How one step of t moves the mutex of c's queue. */
  predicate HolderMoved(t: Tid, before: Pc, after: Pc, c: Tid, q: Queue, q': Queue) {
    || (q'.holder == q.holder && (Holds(t, after, c) <==> Holds(t, before, c)))
    || (q.holder == None && q'.holder == Some(t) && Holds(t, after, c))
    || (Holds(t, before, c) && q'.holder == None && !Holds(t, after, c))
  }

  lemma HolderMoves(s: Sys, e: Event, c: Tid)
    requires Can(s, e) && (c in s.clients || c == e.t)
    ensures var eff := EffectOf(s, e).value;
            HolderMoved(e.t, Own(s, e).pc, eff.me.pc, c, OldQueue(s, c), NewQueue(s, e, eff, c))
  {
    if PushEvent(e) {
      HolderMovesPush(s, e, c, EffectOf(s, e).value);
    } else {
      OnlyPushTouchesOthers(s, e);
    }
  }

  lemma HolderMovesPush(s: Sys, e: Event, c: Tid, eff: Effect)
    requires PushEvent(e) && e.t in s.clients && StepPush(s, e, s.clients[e.t]) == Some(eff)
    requires c in s.clients || c == e.t
    ensures HolderMoved(e.t, s.clients[e.t].pc, eff.me.pc, c, OldQueue(s, c), NewQueue(s, e, eff, c))
  {
  }

  /** The message that the thread has pushed to c's deque and not posted to its semaphore. */
  function Unposted(pc: Pc, c: Tid): nat {
    if pc.Inside? && (pc.push == Filled(c) || pc.push == Unlocked(c)) then 1 else 0
  }

  /** The message that the thread has waited for and not popped. */
  function Unpopped(pc: Pc): nat {
    if pc.Permitted? || pc.Popping? then 1 else 0
  }

  /** One step of t keeps the balance of c's deque and semaphore. */
  predicate CountMoved(t: Tid, before: Pc, after: Pc, c: Tid, q: Queue, q': Queue) {
    && |q'.items| - q'.avail - Unposted(after, c) - (if t == c then Unpopped(after) else 0)
       == |q.items| - q.avail - Unposted(before, c) - (if t == c then Unpopped(before) else 0)
  }

  lemma CountMoves(s: Sys, e: Event, c: Tid)
    requires Can(s, e) && (c in s.clients || c == e.t) && !EffectOf(s, e).value.shared.fault
    ensures var eff := EffectOf(s, e).value;
            CountMoved(e.t, Own(s, e).pc, eff.me.pc, c, OldQueue(s, c), NewQueue(s, e, eff, c))
  {
    if PushEvent(e) {
      CountMovesPush(s, e, c, EffectOf(s, e).value);
    } else {
      OnlyPushTouchesOthers(s, e);
    }
  }

  lemma CountMovesPush(s: Sys, e: Event, c: Tid, eff: Effect)
    requires PushEvent(e) && e.t in s.clients && StepPush(s, e, s.clients[e.t]) == Some(eff)
    requires (c in s.clients || c == e.t) && !eff.shared.fault
    ensures CountMoved(e.t, s.clients[e.t].pc, eff.me.pc, c, OldQueue(s, c), NewQueue(s, e, eff, c))
  {
  }

  /** A new state as the acting thread's step makes it, queue by queue. */
  lemma StepQueues(s: Sys, e: Event, s': Sys)
    requires Step(s, e) == Some(s')
    ensures Can(s, e) && s'.shared == EffectOf(s, e).value.shared
    ensures e.t in s'.clients && s'.clients[e.t].pc == EffectOf(s, e).value.me.pc
    ensures forall c | c in s'.clients :: s'.clients[c].queue == NewQueue(s, e, EffectOf(s, e).value, c)
  {
    if EffectOf(s, e).value.queue.Some? {
      PushTargetExists(s, e);
    }
  }

  lemma PushTargetExists(s: Sys, e: Event)
    requires Can(s, e) && EffectOf(s, e).value.queue.Some?
    ensures PushEvent(e) && EffectOf(s, e).value.queue.value.0 in s.clients
  {
    if !PushEvent(e) {
      OnlyPushTouchesOthers(s, e);
    }
  }

  /** The mutexes of the queues move consistently in one step. */
  ghost predicate HoldersMoved(s: Sys, e: Event, s': Sys) {
    e.t in s'.clients &&
    forall c | c in s'.clients ::
        HolderMoved(e.t, Own(s, e).pc, s'.clients[e.t].pc, c, OldQueue(s, c), s'.clients[c].queue)
  }

  lemma HolderKept(s: Sys, e: Event, s': Sys, c: Tid)
    requires QueueLocks(s) && Framed(s, e, s') && HoldersMoved(s, e, s') && c in s'.clients
    ensures QueueLock(s', c)
  {
    assert HolderMoved(e.t, Own(s, e).pc, s'.clients[e.t].pc, c, OldQueue(s, c), s'.clients[c].queue);
    assert c in s.clients ==> QueueLock(s, c);
    forall t | t in s'.clients && Holds(t, s'.clients[t].pc, c)
      ensures s'.clients[c].queue.holder == Some(t)
    {
      if t != e.t {
        assert Holds(t, s.clients[t].pc, c);
      }
    }
  }

  lemma QueueLocksKept(s: Sys, e: Event, s': Sys)
    requires QueueLocks(s) && Framed(s, e, s') && HoldersMoved(s, e, s')
    requires forall c | Holds(e.t, s'.clients[e.t].pc, c) :: c in s'.clients
    ensures QueueLocks(s')
  {
    forall c | c in s'.clients
      ensures QueueLock(s', c)
    {
      HolderKept(s, e, s', c);
    }
    forall t, c | t in s'.clients && Holds(t, s'.clients[t].pc, c)
      ensures c in s'.clients
    {
      if t != e.t {
        assert Holds(t, s.clients[t].pc, c);
      }
    }
  }

  // ----- lifetimes -----

  /** The display loop runs between the registration of a client and its removal. */
  predicate Enrolled(pc: Pc) {
    match pc
    case Inside(job, stage, _, _) => (job.Join? && stage != Begin) || (job.Leave? && stage == Begin)
    case Want(job) => job.Leave?
    case Waiting => true
    case Permitted => true
    case Popping => true
    case Popped(_) => true
    case Sending(_) => true
    case _ => false
  }

  ghost predicate OwedAlive(pc: Pc, displays: set<Tid>) {
    pc.Inside? ==>
      && (forall i | 0 <= i < |pc.owed| :: pc.owed[i].to in displays)
      && (pc.push.Filled? || pc.push.Unlocked? ==> pc.push.to in displays)
  }

  /** The registered clients are those in their display loop, all pushes go to registered clients,
      and nothing undefined has happened. */
  ghost predicate Alive(s: Sys) {
    && !s.shared.fault
    && s.shared.displays <= s.clients.Keys
    && (forall c | c in s.clients :: c in s.shared.displays <==> Enrolled(s.clients[c].pc))
    && (forall c | c in s.clients :: OwedAlive(s.clients[c].pc, s.shared.displays))
  }

  ghost predicate EnrollmentMoved(t: Tid, before: Pc, after: Pc, displays: set<Tid>, displays': set<Tid>) {
    && (displays' == displays || displays' == displays + {t} || displays' == displays - {t})
    && (displays' == displays || before.Inside?)
    && (t in displays' <==> Enrolled(after))
    && OwedAlive(after, displays')
  }

  lemma EnrollmentMoves(s: Sys, e: Event)
    requires Can(s, e) && (e.t in s.shared.displays <==> Enrolled(Own(s, e).pc))
             && OwedAlive(Own(s, e).pc, s.shared.displays)
    ensures EnrollmentMoved(e.t, Own(s, e).pc, EffectOf(s, e).value.me.pc, s.shared.displays,
            EffectOf(s, e).value.shared.displays)
  {
    var eff := EffectOf(s, e).value;
    if PushEvent(e) {
      EnrollmentMovesPush(s, e, eff);
    } else if e.Proceed? {
      if s.clients[e.t].pc.job.Serve? {
        EnrollmentMovesServe(s.shared, e.t, s.clients[e.t], e.order, eff);
      } else {
        EnrollmentMovesEnroll(s.shared, e.t, s.clients[e.t], eff);
      }
    }
  }

  lemma EnrollmentMovesServe(sh: Shared, t: Tid, c: Client, order: seq<Tid>, eff: Effect)
    requires c.pc.Inside? && c.pc.job.Serve? && c.pc.owed == [] && c.pc.push == Ready
    requires StepServe(sh, t, c, order) == Some(eff) && t !in sh.displays
    ensures EnrollmentMoved(t, c.pc, eff.me.pc, sh.displays, eff.shared.displays)
  {
  }

  lemma EnrollmentMovesEnroll(sh: Shared, t: Tid, c: Client, eff: Effect)
    requires c.pc.Inside? && !c.pc.job.Serve? && c.pc.owed == [] && c.pc.push == Ready
    requires StepEnroll(sh, t, c) == Some(eff) && (t in sh.displays <==> Enrolled(c.pc))
    ensures EnrollmentMoved(t, c.pc, eff.me.pc, sh.displays, eff.shared.displays)
  {
  }

  lemma EnrollmentMovesPush(s: Sys, e: Event, eff: Effect)
    requires PushEvent(e) && e.t in s.clients && StepPush(s, e, s.clients[e.t]) == Some(eff)
    requires (e.t in s.shared.displays <==> Enrolled(s.clients[e.t].pc))
             && OwedAlive(s.clients[e.t].pc, s.shared.displays)
    ensures EnrollmentMoved(e.t, s.clients[e.t].pc, eff.me.pc, s.shared.displays, eff.shared.displays)
  {
  }

  // ----- the semaphores -----

  /** The part of the pushed messages that the thread inside the critical section has not posted. */
  function UnpostedTo(s: Sys, c: Tid): nat {
    if s.shared.lock.Some?
        && s.shared.lock.value in s.clients then Unposted(s.clients[s.shared.lock.value].pc, c) else 0
  }

  /** Each deque holds the messages counted by its semaphore, the one pushed but not yet posted,
      and the one waited for but not yet popped. */
  ghost predicate Counted(s: Sys) {
    forall c | c in s.clients ::
      |s.clients[c].queue.items| == s.clients[c].queue.avail + UnpostedTo(s, c) + Unpopped(s.clients[c].pc)
  }

  ghost predicate CountsMoved(s: Sys, e: Event, s': Sys) {
    e.t in s'.clients &&
    forall c | c in s'.clients ::
        CountMoved(e.t, Own(s, e).pc, s'.clients[e.t].pc, c, OldQueue(s, c), s'.clients[c].queue)
  }

  lemma CountedKept(s: Sys, e: Event, s': Sys)
    requires ServerLock(s) && ServerLock(s') && Counted(s) && Alive(s)
    requires Framed(s, e, s') && CountsMoved(s, e, s')
    requires LockMoved(e.t, Own(s, e).pc, s'.clients[e.t].pc, s.shared.lock, s'.shared.lock)
    requires Own(s, e).pc.Inside? && !s'.clients[e.t].pc.Inside? ==> Own(s, e).pc.push == Ready
    requires !Own(s, e).pc.Inside? && s'.clients[e.t].pc.Inside? ==> s'.clients[e.t].pc.push == Ready
    ensures Counted(s')
  {
    forall c | c in s'.clients
      ensures |s'.clients[c].queue.items| == s'.clients[c].queue.avail + UnpostedTo(s', c) + Unpopped(s'.clients[c].pc)
    {
      assert CountMoved(e.t, Own(s, e).pc, s'.clients[e.t].pc, c, OldQueue(s, c), s'.clients[c].queue);
      UnpostedMoved(s, e, s', c);
    }
  }

  lemma UnpostedMoved(s: Sys, e: Event, s': Sys, c: Tid)
    requires ServerLock(s) && ServerLock(s') && Alive(s) && Framed(s, e, s') && c in s'.clients
    requires LockMoved(e.t, Own(s, e).pc, s'.clients[e.t].pc, s.shared.lock, s'.shared.lock)
    requires Own(s, e).pc.Inside? && !s'.clients[e.t].pc.Inside? ==> Own(s, e).pc.push == Ready
    requires !Own(s, e).pc.Inside? && s'.clients[e.t].pc.Inside? ==> s'.clients[e.t].pc.push == Ready
    ensures UnpostedTo(s', c) - Unposted(s'.clients[e.t].pc, c) == UnpostedTo(s, c) - Unposted(Own(s, e).pc, c)
    ensures c !in s.clients ==> UnpostedTo(s, c) == 0
  {
  }

  /** front() finds a message, and the target of a push is a live client. */
  lemma NoFault(s: Sys, e: Event)
    requires Can(s, e) && Alive(s) && Counted(s)
    ensures !EffectOf(s, e).value.shared.fault
  {
  }

  // ----- every reachable state -----

  ghost predicate Synchronized(s: Sys) {
    ServerLock(s) && QueueLocks(s) && Alive(s) && Counted(s)
  }

  lemma AliveKept(s: Sys, e: Event, s': Sys)
    requires ServerLock(s) && Alive(s) && Framed(s, e, s') && !s'.shared.fault
    requires EnrollmentMoved(e.t, Own(s, e).pc, s'.clients[e.t].pc, s.shared.displays, s'.shared.displays)
    ensures Alive(s')
  {
    forall c | c in s'.clients
      ensures OwedAlive(s'.clients[c].pc, s'.shared.displays)
    {
      if c != e.t && s'.clients[c].pc.Inside? {
        assert s'.shared.displays == s.shared.displays;
      }
    }
  }

  /** A thread enters and leaves the server's critical section between pushes. */
  lemma EntersReady(s: Sys, e: Event)
    requires Can(s, e)
    ensures var before, after := Own(s, e).pc, EffectOf(s, e).value.me.pc;
            && (before.Inside? && !after.Inside? ==> before.push == Ready)
            && (!before.Inside? && after.Inside? ==> after.push == Ready)
  {
  }

  /** What the acting thread's step does to the server mutex and the registrations. */
  ghost predicate Moved(s: Sys, e: Event, before: Pc, after: Pc, sh: Shared) {
    && !sh.fault
    && LockMoved(e.t, before, after, s.shared.lock, sh.lock)
    && EnrollmentMoved(e.t, before, after, s.shared.displays, sh.displays)
    && (before.Inside? && !after.Inside? ==> before.push == Ready)
    && (!before.Inside? && after.Inside? ==> after.push == Ready)
  }

  lemma EffectMoves(s: Sys, e: Event)
    requires Synchronized(s) && Can(s, e)
    ensures Moved(s, e, Own(s, e).pc, EffectOf(s, e).value.me.pc, EffectOf(s, e).value.shared)
  {
    NoFault(s, e);
    EntersReady(s, e);
    LockMoves(s, e);
    EnrollmentMoves(s, e);
  }

  lemma SynchronizedKept(s: Sys, e: Event, s': Sys)
    requires Synchronized(s) && Step(s, e) == Some(s')
    ensures Synchronized(s') && Framed(s, e, s')
  {
    StepQueues(s, e, s');
    StepIsFramed(s, e, s');
    EffectMoves(s, e);
    QueuesMoved(s, e, s');
    SynchronizedByParts(s, e, s');
  }

  lemma QueuesMoved(s: Sys, e: Event, s': Sys)
    requires Step(s, e) == Some(s') && !s'.shared.fault
    ensures HoldersMoved(s, e, s') && CountsMoved(s, e, s')
  {
    StepQueues(s, e, s');
    forall c | c in s'.clients
      ensures HolderMoved(e.t, Own(s, e).pc, s'.clients[e.t].pc, c, OldQueue(s, c), s'.clients[c].queue)
      ensures CountMoved(e.t, Own(s, e).pc, s'.clients[e.t].pc, c, OldQueue(s, c), s'.clients[c].queue)
    {
      HolderMoves(s, e, c);
      CountMoves(s, e, c);
    }
  }

  lemma SynchronizedByParts(s: Sys, e: Event, s': Sys)
    requires Synchronized(s) && Framed(s, e, s') && HoldersMoved(s, e, s') && CountsMoved(s, e, s')
    requires Moved(s, e, Own(s, e).pc, s'.clients[e.t].pc, s'.shared)
    ensures Synchronized(s')
  {
    ServerLockKept(s, e, s');
    AliveKept(s, e, s');
    CountedKept(s, e, s');
    forall c | Holds(e.t, s'.clients[e.t].pc, c)
      ensures c in s'.clients
    {
      assert OwedAlive(s'.clients[e.t].pc, s'.shared.displays);
    }
    QueueLocksKept(s, e, s');
  }
}
