/** Whole runs of the system: what holds in every reachable state, and how a later state extends
    an earlier one. */
module MachineRuns {
  import opened Wrappers
  import opened Model
  import opened Text
  import opened Wire
  import opened ServerSpec
  import opened ServerProofs
  import opened Protocol
  import opened Machine
  import opened MachineLocks
  import opened MachineProgress
  import opened MachineLog
  import opened MachineFlow
  import opened MachineLinks
  import opened MachineSessions
  import opened MachineLeaving
  import opened MachineReplies

  ghost predicate SysInv(s: Sys) {
    Synchronized(s) && Recorded(s) && Flowing(s) && Linked(s) && Answered(s) && LeftForCause(s) && Replied(s)
  }

  /** The system comes from its initial state, with some set of users, by some events. */
  ghost predicate Reached(s: Sys) {
    exists users, es :: Exec(Init(users), es) == Some(s)
  }

  lemma InitOk(users: set<string>)
    ensures SysInv(Init(users))
  {
    var s := Init(users);
    assert Replay(map[], s.shared.log) == Ok(map[]);
    assert Visible(s.shared.server.orders) == map[];
  }

  lemma SysInvKept(s: Sys, e: Event, s': Sys)
    requires SysInv(s) && Step(s, e) == Some(s')
    ensures SysInv(s')
  {
    SynchronizedKept(s, e, s');
    RecordedKept(s, e, s');
    FlowingKept(s, e, s');
    LinkedKept(s, e, s');
    AnsweredKept(s, e, s');
    LeftForCauseKept(s, e, s');
    RepliedKept(s, e, s');
  }

  lemma {:induction false} RunKeeps(users: set<string>, es: seq<Event>)
    requires Exec(Init(users), es).Some?
    ensures SysInv(Exec(Init(users), es).value)
  {
    if es == [] {
      InitOk(users);
    } else {
      RunKeeps(users, es[..|es| - 1]);
      SysInvKept(Exec(Init(users), es[..|es| - 1]).value, es[|es| - 1], Exec(Init(users), es).value);
    }
  }

  /** Every reachable state satisfies all the invariants. */
  lemma ReachedKeeps(s: Sys)
    requires Reached(s)
    ensures SysInv(s)
  {
    var users, es :| Exec(Init(users), es) == Some(s);
    RunKeeps(users, es);
  }

  lemma {:induction false} ExecAppend(s: Sys, a: seq<Event>, b: seq<Event>)
    ensures Exec(s, a + b) == if Exec(s, a).None? then None else Exec(Exec(s, a).value, b)
  {
    if b == [] {
      assert a + b == a;
    } else {
      assert (a + b)[..|a + b| - 1] == a + b[..|b| - 1];
      ExecAppend(s, a, b[..|b| - 1]);
    }
  }

  lemma ReachedOn(s: Sys, es: seq<Event>, s': Sys)
    requires Reached(s) && Exec(s, es) == Some(s')
    ensures Reached(s')
  {
    var users, before :| Exec(Init(users), before) == Some(s);
    ExecAppend(Init(users), before, es);
  }

  // ----- later states -----

  /** What a later state of a connection keeps of an earlier one. */
  ghost predicate ClientLater(a: Client, b: Client) {
    && a.link.sent <= b.link.sent && a.link.read <= b.link.read
    && a.feed.taken <= b.feed.taken
    && a.talk.finished <= b.talk.finished && a.talk.asked <= b.talk.asked
    && (a.talk.mode != ClientMode.INVALID ==> b.talk.mode == a.talk.mode)
    && (a.feed.joined ==> b.feed.joined && b.feed.start == a.feed.start && b.feed.snapshot == a.feed.snapshot)
  }

  /** What a later state keeps of an earlier one: histories only grow. */
  ghost predicate Later(s: Sys, s': Sys) {
    && s.shared.log <= s'.shared.log && s.shared.served <= s'.shared.served
    && s.shared.server.next <= s'.shared.server.next
    && forall c | c in s.clients :: c in s'.clients && ClientLater(s.clients[c], s'.clients[c])
  }

  lemma OwnLater(s: Sys, e: Event)
    requires Can(s, e) && LinkOk(Own(s, e).link) && ModeOk(Own(s, e).talk.mode, Own(s, e).pc)
    requires BeforeJoin(Own(s, e).pc) ==> !Own(s, e).feed.joined
    requires !Own(s, e).feed.joined ==> Own(s, e).feed.taken == []
    ensures ClientLater(Own(s, e), EffectOf(s, e).value.me)
  {
    var eff := EffectOf(s, e).value;
    if e.Accept? {
      assert eff.me == FRESH;
    } else if e.Display? {
      ReadKeeps(s.clients[e.t].link);
    } else if e.Send? {
      SendLater(s.shared, s.clients[e.t], e.upto, eff);
    } else if e.Proceed? {
      ProceedLater(s, e, eff);
    } else if e.PopFront? {
      PopFrontLater(s.shared, s.clients[e.t], eff);
    } else if e.Arrive? {
      ArriveLater(s.users, s.shared, s.clients[e.t], e.raw, eff);
    } else {
      PcMovesOn(s, e);
    }
  }

  lemma PopFrontLater(sh: Shared, c: Client, eff: Effect)
    requires StepPopFront(sh, c) == Some(eff)
    ensures ClientLater(c, eff.me)
  {
  }

  lemma ArriveLater(users: set<string>, sh: Shared, c: Client, raw: string, eff: Effect)
    requires StepArrive(users, sh, c, raw) == Some(eff) && ModeOk(c.talk.mode, c.pc)
    ensures ClientLater(c, eff.me)
  {
  }

  lemma SendLater(sh: Shared, c: Client, upto: nat, eff: Effect)
    requires StepSend(sh, c, upto) == Some(eff)
    ensures ClientLater(c, eff.me)
  {
  }

  lemma ProceedLater(s: Sys, e: Event, eff: Effect)
    requires e.Proceed? && e.t in s.clients && EffectOf(s, e) == Some(eff)
    requires BeforeJoin(s.clients[e.t].pc) ==> !s.clients[e.t].feed.joined
    requires !s.clients[e.t].feed.joined ==> s.clients[e.t].feed.taken == []
    ensures ClientLater(s.clients[e.t], eff.me)
  {
  }

  lemma SharedLater(s: Sys, e: Event)
    requires Can(s, e)
    ensures var sh' := EffectOf(s, e).value.shared;
            s.shared.log <= sh'.log && s.shared.served <= sh'.served && s.shared.server.next <= sh'.server.next
  {
    if !(e.Proceed? && Own(s, e).pc.Inside? && Own(s, e).pc.job.Serve?) {
      OthersKeepData(s, e);
    }
  }

  lemma LaterByParts(s: Sys, e: Event, eff: Effect, s': Sys)
    requires Via(s, e, eff, s') && ClientLater(Own(s, e), eff.me)
    requires s.shared.log <= eff.shared.log && s.shared.served <= eff.shared.served
    requires s.shared.server.next <= eff.shared.server.next
    ensures Later(s, s')
  {
    forall c | c in s.clients
      ensures c in s'.clients && ClientLater(s.clients[c], s'.clients[c])
    {
      assert c != e.t ==> s'.clients[c] == s.clients[c].(queue := s'.clients[c].queue);
    }
  }

  lemma StepLater(s: Sys, e: Event, s': Sys)
    requires SysInv(s) && Step(s, e) == Some(s')
    ensures Later(s, s')
  {
    StepVia(s, e, s');
    if e.Accept? {
      FreshOk();
    }
    assert Own(s, e).feed.joined || Own(s, e).feed.taken == [];
    OwnLater(s, e);
    SharedLater(s, e);
    LaterByParts(s, e, EffectOf(s, e).value, s');
  }

  lemma LaterTransitively(a: Sys, b: Sys, c: Sys)
    requires Later(a, b) && Later(b, c)
    ensures Later(a, c)
  {
    forall k | k in a.clients
      ensures k in c.clients && ClientLater(a.clients[k], c.clients[k])
    {
      assert ClientLater(a.clients[k], b.clients[k]) && ClientLater(b.clients[k], c.clients[k]);
    }
  }

  /** Along a run, the log, what each connection was sent, read and answered, and the snapshot of
      each registration are never taken back. */
  lemma {:induction false} RunsExtend(s: Sys, es: seq<Event>, s': Sys)
    requires Reached(s) && Exec(s, es) == Some(s')
    ensures Reached(s') && Later(s, s')
  {
    ReachedOn(s, es, s');
    if es != [] {
      var mid := Exec(s, es[..|es| - 1]).value;
      RunsExtend(s, es[..|es| - 1], mid);
      ReachedKeeps(mid);
      StepLater(mid, es[|es| - 1], s');
      LaterTransitively(s, mid, s');
    }
  }

  // ----- sessions over whole runs -----

  /** A frame that logs in one of the users, with the given mode. */
  predicate LogsIn(users: set<string>, raw: string, mode: ClientMode) {
    Decode(raw).Ok? && var m := Decode(raw).value; m.kind == LOGIN && m.mode == mode && m.str in users
  }

  lemma ModeMoves(s: Sys, e: Event)
    requires Can(s, e) && ModeOk(Own(s, e).talk.mode, Own(s, e).pc)
    ensures var before, after := Own(s, e).talk.mode, EffectOf(s, e).value.me.talk.mode;
            after == before || (e.Arrive? && (after == ClientMode.INVALID || LogsIn(s.users, e.raw, after)))
  {
  }

  lemma ModeMoved(s: Sys, e: Event, s': Sys, t: Tid)
    requires Synchronized(s) && Linked(s) && Step(s, e) == Some(s') && t in s'.clients
    ensures var before, after := if t in s.clients then s.clients[t].talk.mode else ClientMode.INVALID,
            s'.clients[t].talk.mode;
            after == before || after == ClientMode.INVALID || (e.t == t && e.Arrive? && LogsIn(s.users, e.raw, after))
  {
    StepVia(s, e, s');
    if e.Accept? {
      FreshOk();
    }
    ModeMoves(s, e);
    ModeByParts(s, e, EffectOf(s, e).value, s', t);
  }

  lemma ModeByParts(s: Sys, e: Event, eff: Effect, s': Sys, t: Tid)
    requires Via(s, e, eff, s') && t in s'.clients
    ensures t in s.clients || t == e.t
    ensures s'.clients[t].talk.mode == if t == e.t then eff.me.talk.mode else s.clients[t].talk.mode
  {
    assert t != e.t ==> s'.clients[t] == s.clients[t].(queue := s'.clients[t].queue);
  }

  lemma {:induction false} LoggedInBefore(users: set<string>, es: seq<Event>, t: Tid) returns (i: nat)
    requires Exec(Init(users), es).Some?
    requires var s := Exec(Init(users), es).value; t in s.clients && s.clients[t].talk.mode != ClientMode.INVALID
    ensures i < |es| && es[i].Arrive? && es[i].t == t
    ensures LogsIn(users, es[i].raw, Exec(Init(users), es).value.clients[t].talk.mode)
    ensures Exec(Init(users), es).value.users == users
  {
    var init, e := es[..|es| - 1], es[|es| - 1];
    var s, s' := Exec(Init(users), init).value, Exec(Init(users), es).value;
    ModeMovedLast(users, init, e, t);
    if e.t == t && e.Arrive? && LogsIn(users, e.raw, s'.clients[t].talk.mode) {
      i := |es| - 1;
    } else {
      i := LoggedInBefore(users, init, t);
    }
  }

  lemma ModeMovedLast(users: set<string>, init: seq<Event>, e: Event, t: Tid)
    requires Exec(Init(users), init).Some? && Step(Exec(Init(users), init).value, e).Some?
    requires t in Step(Exec(Init(users), init).value, e).value.clients
    ensures var s := Exec(Init(users), init).value;
            var s' := Step(s, e).value;
            var before, after := if t in s.clients then s.clients[t].talk.mode else ClientMode.INVALID,
                s'.clients[t].talk.mode;
            && s'.users == users
            && (after == before || after == ClientMode.INVALID
               || (e.t == t && e.Arrive? && LogsIn(users, e.raw, after)))
  {
    RunKeeps(users, init);
    UsersFixed(users, init);
    var s := Exec(Init(users), init).value;
    ModeMoved(s, e, Step(s, e).value, t);
  }

  lemma {:induction false} UsersFixed(users: set<string>, es: seq<Event>)
    requires Exec(Init(users), es).Some?
    ensures Exec(Init(users), es).value.users == users
  {
    if es != [] {
      UsersFixed(users, es[..|es| - 1]);
    }
  }

  lemma {:induction false} MadeByActor(served: seq<Request>, actors: seq<Tid>, i: nat)
    requires |served| == |actors| && i < |actors|
    ensures served[i] in MadeBy(served, actors, actors[i])
  {
    var n := |actors| - 1;
    if i < n {
      MadeByActor(served[..n], actors[..n], i);
    }
  }

  lemma ActorsAreUpdaters(s: Sys, k: nat)
    requires SysInv(s) && k < |s.shared.actors|
    ensures s.shared.actors[k] in s.clients && s.clients[s.shared.actors[k]].talk.mode == UPDATER
  {
    var t := s.shared.actors[k];
    MadeByActor(s.shared.served, s.shared.actors, k);
    assert t in s.clients;
    assert SessionOk(s.shared, t, s.clients[t].talk, s.clients[t].pc);
  }

  /** Only a thread that serves a request of its own is added to the actors, at the end. */
  lemma ActorsMove(s: Sys, e: Event)
    requires Can(s, e)
    ensures var sh' := EffectOf(s, e).value.shared;
            sh'.actors == s.shared.actors
            || (sh'.actors == s.shared.actors + [e.t] && Own(s, e).pc.Inside? && Own(s, e).pc.job.Serve?)
  {
    if !(e.Proceed? && Own(s, e).pc.Inside? && Own(s, e).pc.job.Serve?) {
      OthersKeepData(s, e);
    }
  }

  lemma ServerIsUpdater(s: Sys, e: Event, s': Sys)
    requires SysInv(s) && Step(s, e) == Some(s')
    ensures s'.shared.actors == s.shared.actors
            || (s'.shared.actors == s.shared.actors + [e.t] && e.t in s.clients && s.clients[e.t].talk.mode == UPDATER)
  {
    StepVia(s, e, s');
    ActorsMove(s, e);
    if e.t in s.clients {
      assert ClientOk(s.clients[e.t]);
    }
  }

  /** Event j adds the thread t to the actors, as the one with number k. */
  ghost predicate BeginsAt(users: set<string>, es: seq<Event>, j: nat, k: nat, t: Tid) {
    && j < |es| && Exec(Init(users), es[..j]).Some? && Exec(Init(users), es[..j + 1]).Some? && es[j].t == t
    && var before, after := Exec(Init(users), es[..j]).value.shared, Exec(Init(users), es[..j + 1]).value.shared;
       |before.actors| == k && after.actors == before.actors + [t]
  }

  lemma BeginsInPrefix(users: set<string>, es: seq<Event>, n: nat, j: nat, k: nat, t: Tid)
    requires n <= |es| && BeginsAt(users, es[..n], j, k, t)
    ensures BeginsAt(users, es, j, k, t)
  {
    assert es[..n][..j] == es[..j] && es[..n][..j + 1] == es[..j + 1];
  }

  /** The last event of a run either leaves the actors or begins a call of an updater. */
  lemma LastBegins(users: set<string>, es: seq<Event>)
    requires es != [] && Exec(Init(users), es).Some?
    ensures Exec(Init(users), es[..|es| - 1]).Some?
    ensures var n, s := |es| - 1, Exec(Init(users), es[..|es| - 1]).value;
            Exec(Init(users), es).value.shared.actors == s.shared.actors
            || (&& Exec(Init(users), es).value.shared.actors == s.shared.actors + [es[n].t]
                && BeginsAt(users, es, n, |s.shared.actors|, es[n].t)
                && es[n].t in s.clients && s.clients[es[n].t].talk.mode == UPDATER)
  {
    var n := |es| - 1;
    var s, s' := Exec(Init(users), es[..n]).value, Exec(Init(users), es).value;
    LastStep(users, es);
    if s'.shared.actors != s.shared.actors {
      LastBeginsAt(users, es, n);
    }
  }

  lemma LastStep(users: set<string>, es: seq<Event>)
    requires es != [] && Exec(Init(users), es).Some?
    ensures Exec(Init(users), es[..|es| - 1]).Some?
    ensures var n, s := |es| - 1, Exec(Init(users), es[..|es| - 1]).value;
            Exec(Init(users), es).value.shared.actors == s.shared.actors
            || (&& Exec(Init(users), es).value.shared.actors == s.shared.actors + [es[n].t]
                && es[n].t in s.clients && s.clients[es[n].t].talk.mode == UPDATER)
  {
    var n := |es| - 1;
    RunKeeps(users, es[..n]);
    ServerIsUpdater(Exec(Init(users), es[..n]).value, es[n], Exec(Init(users), es).value);
  }

  lemma LastBeginsAt(users: set<string>, es: seq<Event>, n: nat)
    requires |es| == n + 1 && Exec(Init(users), es).Some? && Exec(Init(users), es[..n]).Some?
    requires Exec(Init(users), es).value.shared.actors ==
             Exec(Init(users), es[..n]).value.shared.actors + [es[n].t]
    ensures BeginsAt(users, es, n, |Exec(Init(users), es[..n]).value.shared.actors|, es[n].t)
  {
    assert es[..n + 1] == es;
  }

  /** No request is served, let alone takes effect, before its connection has sent the credentials of
      a user, with mode UPDATER: the login is event i, and the call begins at the later event j. */
  lemma {:induction false} NoChangeBeforeLogin(users: set<string>, es: seq<Event>, k: nat) returns (i: nat, j: nat)
    requires Exec(Init(users), es).Some? && k < |Exec(Init(users), es).value.shared.actors|
    ensures i < j && BeginsAt(users, es, j, k, Exec(Init(users), es).value.shared.actors[k])
    ensures es[i].Arrive? && es[i].t == Exec(Init(users), es).value.shared.actors[k]
    ensures LogsIn(users, es[i].raw, UPDATER)
  {
    LastBegins(users, es);
    var n := |es| - 1;
    if k < |Exec(Init(users), es[..n]).value.shared.actors| {
      i, j := NoChangeBeforeLogin(users, es[..n], k);
      BeginsInPrefix(users, es, n, j, k, Exec(Init(users), es[..n]).value.shared.actors[k]);
    } else {
      i := LoggedInBefore(users, es[..n], es[n].t);
      j := n;
    }
  }

  // ----- what arrives -----

  /** The frames that have arrived from connection t. */
  function Arrivals(es: seq<Event>, t: Tid): seq<string> {
    if es == [] then []
    else
      var e := es[|es| - 1];
      Arrivals(es[..|es| - 1], t) + if e.Arrive? && e.t == t then [e.raw] else []
  }

  /** The messages that they hold. */
  function Messages(frames: seq<string>): seq<Message> {
    if frames == [] then []
    else
      var m := Decode(frames[|frames| - 1]);
      Messages(frames[..|frames| - 1]) + if m.Ok? then [m.value] else []
  }

  /** How an event of its thread moves what a connection has asked. */
  predicate AskedMoved(before: Client, after: Client, e: Event) {
    if e.Arrive? then
      && (before.pc.Login? || (before.pc.Idle? && before.talk.mode == UPDATER)) && !after.pc.Login?
      && (before.pc.Idle? ==> after.talk.mode == before.talk.mode)
      && after.talk.asked ==
         before.talk.asked + if before.pc.Idle? && Decode(e.raw).Ok? then [Decode(e.raw).value] else []
    else
      && after.talk.asked == before.talk.asked && after.talk.mode == before.talk.mode
      && (after.pc.Login? ==> before.pc.Login?)
  }

  lemma AskedMoves(s: Sys, e: Event)
    requires Can(s, e) && ModeOk(Own(s, e).talk.mode, Own(s, e).pc)
    ensures AskedMoved(Own(s, e), EffectOf(s, e).value.me, e)
  {
  }

  ghost predicate AskedOk(c: Client, frames: seq<string>) {
    && (c.pc.Login? ==> frames == [] && c.talk.asked == [])
    && (c.talk.mode == UPDATER ==> frames != [] && c.talk.asked == Messages(frames[1..]))
  }

  lemma AskedNext(before: Client, after: Client, frames: seq<string>, raw: string)
    requires AskedOk(before, frames) && ModeOk(before.talk.mode, before.pc) && !after.pc.Login?
    requires before.pc.Login? || (before.pc.Idle? && before.talk.mode == UPDATER && after.talk.mode == UPDATER)
    requires after.talk.asked ==
             before.talk.asked + if before.pc.Idle? && Decode(raw).Ok? then [Decode(raw).value] else []
    ensures AskedOk(after, frames + [raw])
  {
    if before.pc.Login? {
      assert (frames + [raw])[1..] == [];
    } else {
      var rest := frames[1..];
      assert (frames + [raw])[1..] == rest + [raw];
      assert (rest + [raw])[..|rest|] == rest;
    }
  }

  /** What an updater asks is what has arrived from it after its login, frame by frame. */
  lemma {:induction false} AskedIsWhatArrived(users: set<string>, es: seq<Event>, t: Tid)
    requires Exec(Init(users), es).Some? && t in Exec(Init(users), es).value.clients
    ensures AskedOk(Exec(Init(users), es).value.clients[t], Arrivals(es, t))
  {
    var init, e := es[..|es| - 1], es[|es| - 1];
    var s, s' := Exec(Init(users), init).value, Exec(Init(users), es).value;
    RunKeeps(users, init);
    if t in s.clients {
      AskedIsWhatArrived(users, init, t);
    } else {
      NoArrivals(users, init, t);
    }
    AskedStep(s, e, s', t, Arrivals(init, t));
  }

  lemma AskedStep(s: Sys, e: Event, s': Sys, t: Tid, frames: seq<string>)
    requires SysInv(s) && Step(s, e) == Some(s') && t in s'.clients
    requires if t in s.clients then AskedOk(s.clients[t], frames) else frames == []
    ensures AskedOk(s'.clients[t], frames + if e.Arrive? && e.t == t then [e.raw] else [])
  {
    StepVia(s, e, s');
    if e.Accept? {
      FreshOk();
    } else {
      assert ClientOk(s.clients[e.t]);
    }
    AskedMoves(s, e);
    AskedByParts(s, e, EffectOf(s, e).value, s', t, frames);
  }

  lemma AskedByParts(s: Sys, e: Event, eff: Effect, s': Sys, t: Tid, frames: seq<string>)
    requires Via(s, e, eff, s') && t in s'.clients && ModeOk(Own(s, e).talk.mode, Own(s, e).pc)
    requires if t in s.clients then AskedOk(s.clients[t], frames) else frames == []
    requires AskedMoved(Own(s, e), eff.me, e)
    ensures AskedOk(s'.clients[t], frames + if e.Arrive? && e.t == t then [e.raw] else [])
  {
    assert frames + [] == frames;
    if t != e.t {
      assert s'.clients[t] == s.clients[t].(queue := s'.clients[t].queue);
    } else if e.Arrive? {
      AskedNext(s.clients[t], eff.me, frames, e.raw);
    }
  }

  lemma {:induction false} NoArrivals(users: set<string>, es: seq<Event>, t: Tid)
    requires Exec(Init(users), es).Some? && t !in Exec(Init(users), es).value.clients
    ensures Arrivals(es, t) == []
  {
    if es != [] {
      var init := es[..|es| - 1];
      StepIsFramed(Exec(Init(users), init).value, es[|es| - 1], Exec(Init(users), es).value);
      NoArrivals(users, init, t);
    }
  }

  /** The conversation of a connection. The calls that its messages ask for are, in order, those of its
      requests that were served and the one whose turn has not come. Unless its connection has failed,
      an updater has been sent, or is about to be sent, the login response and then, for each message
      but the one being served, the reply that it deserves: at once where no call is needed, and
      otherwise OK or ERROR as the abstract server accepts or refuses the request in the state that the
      requests served before it, by any connection, lead to. A connection that waits for its peer
      owes nothing; only an updater is served. */
  lemma SessionsAreAnswered(s: Sys, t: Tid)
    requires Reached(s) && t in s.clients
    ensures |s.shared.served| == |s.shared.actors|
    ensures SessionFacts(s.clients[t], MadeBy(s.shared.served, s.shared.actors, t),
                         Outcomes(s.shared.served, s.shared.actors, t))
  {
    ReachedKeeps(s);
    SessionHolds(s, t);
  }

  /** What is known of a connection, given its requests that were served and the replies that they deserve. */
  ghost predicate SessionFacts(c: Client, made: seq<Request>, due: seq<Message>) {
    && made == c.talk.finished + Underway(c.pc) && |due| == |made|
    && Calls(c.talk.asked) == c.talk.finished + Current(c.pc)
    && c.talk.answered <= |c.talk.asked| <= c.talk.answered + 1
    && (Resting(c.pc) ==> |c.talk.asked| == c.talk.answered && made == Calls(c.talk.asked))
    && (if c.talk.mode == UPDATER then SentAsDue(c.link, c.pc, c.talk.asked, due) else made == [] && due == [])
    && (c.talk.mode == UPDATER && Resting(c.pc) && !c.link.broken ==>
          c.link.sent == [LOGIN_OK] + Answers(c.talk.asked, due) && |c.link.sent| == 1 + |c.talk.asked|)
  }

  lemma SessionHolds(s: Sys, t: Tid)
    requires Answered(s) && Replied(s) && Linked(s) && t in s.clients
    ensures SessionFacts(s.clients[t], MadeBy(s.shared.served, s.shared.actors, t),
                         Outcomes(s.shared.served, s.shared.actors, t))
  {
    var c, due := s.clients[t], Outcomes(s.shared.served, s.shared.actors, t);
    assert SessionOk(s.shared, t, c.talk, c.pc) && ClientOk(c);
    OutcomesOfMade(s.shared.served, s.shared.actors, t);
    NothingMore(c.link.sent);
    if Resting(c.pc) {
      AnswersCount(c.talk.asked, due);
    }
  }

  // ----- safety in every reachable state -----

  /** Requests take effect atomically, in the order of their critical sections: whenever the server
      mutex is free, the orders and the broadcasts are those of the served requests run one after the
      other, of which each one listed by Accepted is accepted at its place and the others are
      refused; identities and lifecycle hold, and the log replays to the stored orders. */
  lemma RequestsAreLinear(s: Sys)
    requires Reached(s) && s.shared.lock.None?
    ensures s.shared.server == Run(INITIAL, s.shared.served) && s.shared.log == Log(INITIAL, s.shared.served)
    ensures AdmissibleRun(INITIAL, s.shared.served) && Inv(s.shared.server)
    ensures Replay(map[], s.shared.log) == Ok(s.shared.server.orders)
    ensures var accepted := Accepted(INITIAL, s.shared.served);
            && AllAccepted(INITIAL, accepted)
            && s.shared.server == Run(INITIAL, accepted) && s.shared.log == Log(INITIAL, accepted)
  {
    ReachedKeeps(s);
    InvOfRun(s.shared.served);
    LogRebuilds(s.shared.served);
    AcceptedMakeTheRun(INITIAL, s.shared.served);
  }

  /** Nothing undefined happens: front() is never called on an empty deque, and no message is
      pushed to a deleted Client; each deque holds what its semaphore counts, one message pushed
      but not posted, one waited for but not popped. */
  lemma QueuesAreSafe(s: Sys, c: Tid)
    requires Reached(s) && c in s.clients
    ensures !s.shared.fault
    ensures |s.clients[c].queue.items| == s.clients[c].queue.avail + UnpostedTo(s, c) + Unpopped(s.clients[c].pc)
    ensures s.clients[c].pc.Popping? ==> s.clients[c].queue.items != []
  {
    ReachedKeeps(s);
  }

  /** What a connection takes out of its queue is a prefix of what it is due, in order and without
      loss: its snapshot, and the log from its registration up to its removal. */
  lemma QueuesAreFifo(s: Sys, c: Tid)
    requires Reached(s) && c in s.clients
    ensures var me, present := s.clients[c], c in s.shared.displays;
            if me.feed.joined then
              && me.feed.start <= |s.shared.log| && (present || me.feed.start <= me.feed.stop <= |s.shared.log|)
              && me.feed.taken + me.queue.items + Owed(s, c) == Due(me.feed, s.shared.log, present)
            else me.feed.taken == [] && me.queue.items == []
  {
    ReachedKeeps(s);
  }

  /** The registered displays are the connections inside their display loop, all of them alive,
      and every pending push goes to one of them. */
  lemma RegisteredAreAlive(s: Sys, c: Tid)
    requires Reached(s)
    ensures c in s.shared.displays <==> c in s.clients && Enrolled(s.clients[c].pc)
    ensures c in s.shared.displays ==> s.clients[c].talk.mode == DISPLAY && s.clients[c].pc != Gone
    ensures Owed(s, c) != [] ==> c in s.shared.displays
  {
    ReachedKeeps(s);
    if c !in s.shared.displays {
      OwedIsRegistered(s, c);
    } else {
      EnrolledIsDisplay(s.clients[c]);
    }
  }

  lemma OwedIsRegistered(s: Sys, c: Tid)
    requires Synchronized(s) && c !in s.shared.displays
    ensures Owed(s, c) == []
  {
    if s.shared.lock.Some? {
      var pc := s.clients[s.shared.lock.value].pc;
      assert OwedAlive(pc, s.shared.displays);
      OwedForAbsent(pc.owed, c);
    }
  }

  lemma EnrolledIsDisplay(c: Client)
    requires ClientOk(c) && Enrolled(c.pc)
    ensures c.talk.mode == DISPLAY && c.pc != Gone
  {
  }

  /** The lock order. Whoever holds a queue mutex is not waiting for the server mutex: it holds
      that already, to push a message, or it pops a message from its own queue and does not. */
  lemma LocksAreOrdered(s: Sys, c: Tid)
    requires Reached(s) && c in s.clients && s.clients[c].queue.holder.Some?
    ensures HoldsInOrder(s, s.clients[c].queue.holder.value, c)
  {
    ReachedKeeps(s);
    QueueHolderPlace(s, c);
  }

  /** The thread t, which holds the mutex of c's queue, waits for no mutex: it pushes to c with the
      server mutex in its hands, or pops from its own queue without it. */
  ghost predicate HoldsInOrder(s: Sys, t: Tid, c: Tid) {
    && t in s.clients && Blocker(s, t).None? && !s.clients[t].pc.Want?
    && if s.clients[t].pc.Inside? then s.shared.lock == Some(t) else t == c && s.shared.lock != Some(t)
  }

  lemma QueueHolderPlace(s: Sys, c: Tid)
    requires Synchronized(s) && c in s.clients && s.clients[c].queue.holder.Some?
    ensures HoldsInOrder(s, s.clients[c].queue.holder.value, c)
  {
    assert QueueLock(s, c);
  }

  /** The thread reads from or writes to its connection. */
  predicate OnNetwork(pc: Pc) {
    pc.Login? || pc.Idle? || pc.Answer? || pc.Sending?
  }

  /** No reachable deadlock: a thread that is not waiting for its peer can step, or waits, over at
      most two mutexes, for a thread that can; and no thread waits for one that is on the network. */
  lemma NoReachableDeadlock(s: Sys, t: Tid)
    requires Reached(s) && s.shared.server.next < INT_MAX
    requires t in s.clients && !Resting(s.clients[t].pc)
    ensures exists u :: Enabled(s, u) && (u == t || (Waits(s, t, u) && !OnNetwork(s.clients[u].pc)))
  {
    ReachedKeeps(s);
    NoDeadlock(s, t);
    EnabledUnlessBlocked(s, t);
    if !Enabled(s, t) {
      var u := Blocker(s, t).value;
      BlockerHolds(s, t);
      if Enabled(s, u) {
        assert Waits(s, t, u);
      } else {
        BlockerHolds(s, u);
        var v := Blocker(s, u).value;
        assert Waits(s, t, v);
      }
    }
  }

  lemma BlockerHolds(s: Sys, t: Tid)
    requires Synchronized(s) && t in s.clients && Blocker(s, t).Some?
    ensures Blocker(s, t).value in s.clients && !OnNetwork(s.clients[Blocker(s, t).value].pc)
  {
    var pc := s.clients[t].pc;
    if !pc.Want? {
      assert QueueLock(s, if pc.Permitted? then t else pc.owed[0].to);
    }
  }

  /** t waits for u, directly or through the thread in the server's critical section. */
  ghost predicate Waits(s: Sys, t: Tid, u: Tid)
    requires t in s.clients
  {
    Blocker(s, t) == Some(u)
    || (Blocker(s, t) == s.shared.lock && s.shared.lock.Some?
        && s.shared.lock.value in s.clients && Blocker(s, s.shared.lock.value) == Some(u))
  }
}
