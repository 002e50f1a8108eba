/** How a connection begins and how it ends, over whole runs: who is let in, what the others get, and
    what ends the session of an updater. */
module MachineEnds {
  import opened Wrappers
  import opened Model
  import opened Wire
  import opened Framing
  import opened ServerSpec
  import opened Protocol
  import opened ProtocolLaws
  import opened Machine
  import opened MachineLocks
  import opened MachineFlow
  import opened MachineLinks
  import opened MachineSessions
  import opened MachineRuns

  // ----- what every step keeps -----

  predicate EndsWithQuit(asked: seq<Message>) {
    asked != [] && asked[|asked| - 1].kind == QUIT
  }

  predicate NoEarlierQuit(asked: seq<Message>) {
    forall i | 0 <= i < |asked| - 1 :: asked[i].kind != QUIT
  }

  /** Only the last message of an updater can be a QUIT, and exactly its answer is the last one. */
  predicate QuitOk(talk: Talk, pc: Pc) {
    talk.mode == UPDATER ==>
      && NoEarlierQuit(talk.asked)
      && (EndsWithQuit(talk.asked) ==> pc.Answer? || pc.Gone?)
      && (pc.Answer? ==> (pc.next == Quit <==> EndsWithQuit(talk.asked)))
  }

  ghost predicate TurnsDown(m: Message) {
    Says(m, ERROR, "Invalid credentials")
  }

  /** A connection that is not let in is sent one message at most, which says so. */
  ghost predicate OutsiderOk(c: Client) {
    c.talk.mode == ClientMode.INVALID ==>
      && |c.link.sent| <= 1 && (c.link.sent != [] ==> TurnsDown(c.link.sent[0]))
      && (c.pc.Answer? ==> TurnsDown(c.pc.reply) && c.link.sent == [])
  }

  ghost predicate EndsOk(c: Client) {
    QuitOk(c.talk, c.pc) && OutsiderOk(c)
  }

  lemma OneMoreAsked(asked: seq<Message>, m: Message)
    requires NoEarlierQuit(asked) && !EndsWithQuit(asked)
    ensures NoEarlierQuit(asked + [m]) && (EndsWithQuit(asked + [m]) <==> m.kind == QUIT)
  {
  }

  lemma ArriveEnds(users: set<string>, sh: Shared, c: Client, raw: string, eff: Effect)
    requires StepArrive(users, sh, c, raw) == Some(eff) && EndsOk(c) && ModeOk(c.talk.mode, c.pc)
    requires TalkOk(c.talk, c.pc) && (c.pc.Login? ==> c.link.sent == [])
    ensures EndsOk(eff.me)
  {
    if c.pc.Login? {
      GreetGreets(users, raw);
    } else if Decode(raw).Ok? {
      OneMoreAsked(c.talk.asked, Decode(raw).value);
    }
  }

  lemma SendEnds(sh: Shared, c: Client, upto: nat, eff: Effect)
    requires StepSend(sh, c, upto) == Some(eff) && EndsOk(c) && ModeOk(c.talk.mode, c.pc)
    ensures EndsOk(eff.me)
  {
  }

  lemma ProceedEnds(s: Sys, e: Event, eff: Effect)
    requires e.Proceed? && e.t in s.clients && EffectOf(s, e) == Some(eff)
    requires EndsOk(s.clients[e.t]) && ModeOk(s.clients[e.t].talk.mode, s.clients[e.t].pc)
    ensures EndsOk(eff.me)
  {
    var c := s.clients[e.t];
    if c.pc.job.Serve? {
      ServeEnds(s.shared, e.t, c, e.order, eff);
    } else {
      EnrollEnds(s.shared, e.t, c, eff);
    }
  }

  lemma ServeEnds(sh: Shared, t: Tid, c: Client, order: seq<Tid>, eff: Effect)
    requires c.pc.Inside? && c.pc.job.Serve? && StepServe(sh, t, c, order) == Some(eff)
    requires EndsOk(c) && ModeOk(c.talk.mode, c.pc)
    ensures EndsOk(eff.me)
  {
  }

  lemma EnrollEnds(sh: Shared, t: Tid, c: Client, eff: Effect)
    requires c.pc.Inside? && !c.pc.job.Serve? && StepEnroll(sh, t, c) == Some(eff)
    requires EndsOk(c) && ModeOk(c.talk.mode, c.pc)
    ensures EndsOk(eff.me)
  {
  }

  lemma PopFrontEnds(sh: Shared, c: Client, eff: Effect)
    requires StepPopFront(sh, c) == Some(eff) && EndsOk(c)
    ensures EndsOk(eff.me)
  {
  }

  lemma PcMoveEnds(c: Client, me: Client)
    requires EndsOk(c) && ModeOk(c.talk.mode, c.pc)
    requires PcMoves(c.pc, me.pc) && me == c.(pc := me.pc, queue := me.queue)
    ensures EndsOk(me)
  {
  }

  lemma ReadEnds(c: Client, me: Client)
    requires EndsOk(c) && LinkOk(c.link) && !Blocked(c.link.bytes) && me == c.(link := ReadFrame(c.link))
    ensures EndsOk(me)
  {
    ReadKeeps(c.link);
  }

  /** What is needed of the acting client. */
  ghost predicate Prepared(c: Client) {
    && EndsOk(c) && LinkOk(c.link) && ModeOk(c.talk.mode, c.pc) && TalkOk(c.talk, c.pc)
    && (c.pc.Login? ==> c.link.sent == [])
  }

  lemma EndsMove(s: Sys, e: Event)
    requires Can(s, e) && Prepared(Own(s, e))
    ensures EndsOk(EffectOf(s, e).value.me)
  {
    var eff := EffectOf(s, e).value;
    if e.Accept? {
      assert eff.me == FRESH;
    } else if e.Arrive? {
      ArriveEnds(s.users, s.shared, s.clients[e.t], e.raw, eff);
    } else if e.Send? {
      SendEnds(s.shared, s.clients[e.t], e.upto, eff);
    } else if e.Proceed? {
      ProceedEnds(s, e, eff);
    } else if e.PopFront? {
      PopFrontEnds(s.shared, s.clients[e.t], eff);
    } else if e.Display? {
      ReadEnds(s.clients[e.t], eff.me);
    } else {
      PcMovesOn(s, e);
      PcMoveEnds(s.clients[e.t], eff.me);
    }
  }

  ghost predicate AllEndOk(s: Sys) {
    forall t | t in s.clients :: EndsOk(s.clients[t])
  }

  lemma LinkedClientOk(s: Sys, t: Tid)
    requires Linked(s) && t in s.clients
    ensures ClientOk(s.clients[t])
  {
  }

  lemma AnsweredTalkOk(s: Sys, t: Tid)
    requires Answered(s) && t in s.clients
    ensures TalkOk(s.clients[t].talk, s.clients[t].pc)
  {
    assert SessionOk(s.shared, t, s.clients[t].talk, s.clients[t].pc);
  }

  /** What the invariants say about the acting client. */
  lemma OwnOk(s: Sys, e: Event)
    requires Linked(s) && Answered(s) && AllEndOk(s) && (e.t in s.clients || e.Accept?)
    ensures Prepared(Own(s, e))
  {
    if e.t in s.clients {
      LinkedClientOk(s, e.t);
      AnsweredTalkOk(s, e.t);
    } else {
      FreshOk();
    }
  }

  lemma EndsKept(s: Sys, e: Event, s': Sys)
    requires SysInv(s) && AllEndOk(s) && Step(s, e) == Some(s')
    ensures AllEndOk(s')
  {
    StepVia(s, e, s');
    OwnOk(s, e);
    EndsMove(s, e);
    EndsByParts(s, e, EffectOf(s, e).value, s');
  }

  lemma EndsByParts(s: Sys, e: Event, eff: Effect, s': Sys)
    requires AllEndOk(s) && Via(s, e, eff, s') && EndsOk(eff.me)
    ensures AllEndOk(s')
  {
    forall t | t in s'.clients
      ensures EndsOk(s'.clients[t])
    {
      if t != e.t {
        assert s'.clients[t] == s.clients[t].(queue := s'.clients[t].queue) && EndsOk(s.clients[t]);
      }
    }
  }

  lemma {:induction false} RunEnds(users: set<string>, es: seq<Event>)
    requires Exec(Init(users), es).Some?
    ensures AllEndOk(Exec(Init(users), es).value)
  {
    if es != [] {
      var init := es[..|es| - 1];
      RunEnds(users, init);
      RunKeeps(users, init);
      EndsKept(Exec(Init(users), init).value, es[|es| - 1], Exec(Init(users), es).value);
    }
  }

  lemma ReachedEnds(s: Sys)
    requires Reached(s)
    ensures AllEndOk(s)
  {
    var users, es :| Exec(Init(users), es) == Some(s);
    RunEnds(users, es);
  }

  lemma ReachedClient(s: Sys, t: Tid)
    requires Reached(s) && t in s.clients
    ensures var c := s.clients[t]; LinkOk(c.link) && ModeOk(c.talk.mode, c.pc) && EndsOk(c)
  {
    ReachedKeeps(s);
    ReachedEnds(s);
    LinkedClientOk(s, t);
  }

  lemma OnlyUpdatersAsk(s: Sys, t: Tid)
    requires Reached(s) && t in s.clients
    ensures s.clients[t].talk.mode != UPDATER ==> s.clients[t].talk.asked == []
  {
    ReachedKeeps(s);
    AnsweredTalkOk(s, t);
  }

  // ----- how a connection begins -----

  /** What the first frame of a connection decides. */
  ghost predicate Decides(users: set<string>, raw: string, c: Client) {
    if exists mode, user :: user in users && LoginText(raw, mode, user) then
      && c.pc.Answer? && Says(c.pc.reply, OK, "Login successful")
      && exists user :: user in users && LoginText(raw, c.talk.mode, user)
    else if exists mode, user :: LoginText(raw, mode, user) then
      c.pc.Answer? && TurnsDown(c.pc.reply) && c.talk.mode == ClientMode.INVALID
    else c.pc == Gone && c.talk.mode == ClientMode.INVALID
  }

  /** The first frame of a connection lets it in as it asks if it names a user; it turns the connection
      down if it names somebody else, and ends it without an answer if it is no LOGIN. */
  lemma FirstFrameDecides(s: Sys, e: Event, s': Sys)
    requires Reached(s) && Step(s, e) == Some(s') && e.Arrive? && e.t in s.clients && s.clients[e.t].pc.Login?
    ensures e.t in s'.clients && Decides(s.users, e.raw, s'.clients[e.t])
  {
    ReachedKeeps(s);
    StepVia(s, e, s');
    ArrivalDecides(s.users, s.shared, s.clients[e.t], e.raw, EffectOf(s, e).value);
  }

  lemma ArrivalDecides(users: set<string>, sh: Shared, c: Client, raw: string, eff: Effect)
    requires c.pc.Login? && StepArrive(users, sh, c, raw) == Some(eff)
    ensures Decides(users, raw, eff.me)
  {
    GreetGreets(users, raw);
    forall mode1, c1, mode2, c2 | LoginText(raw, mode1, c1) && LoginText(raw, mode2, c2)
      ensures mode1 == mode2 && c1 == c2
    {
      LoginIsUnique(raw, mode1, c1, mode2, c2);
    }
  }

  /** A connection that is not logged in asks for nothing, has no display registered that shows anything,
      and is sent one message at most: that its credentials are invalid. */
  lemma OutsidersGetNothing(s: Sys, t: Tid)
    requires Reached(s) && t in s.clients && s.clients[t].talk.mode == ClientMode.INVALID
    ensures |s.clients[t].link.sent| <= 1 && forall m | m in s.clients[t].link.sent :: TurnsDown(m)
    ensures t !in s.shared.displays && !s.clients[t].link.screen.Running?
    ensures t !in s.shared.actors
  {
    OutsiderSent(s, t);
    RegisteredAreAlive(s, t);
    OutsiderIsNotServed(s, t);
  }

  lemma OutsiderSent(s: Sys, t: Tid)
    requires Reached(s) && t in s.clients && s.clients[t].talk.mode == ClientMode.INVALID
    ensures |s.clients[t].link.sent| <= 1 && forall m | m in s.clients[t].link.sent :: TurnsDown(m)
    ensures !s.clients[t].link.screen.Running?
  {
    ReachedClient(s, t);
    NothingToShow(s.clients[t].link);
    SentToOutsider(s.clients[t]);
  }

  lemma SentToOutsider(c: Client)
    requires EndsOk(c) && c.talk.mode == ClientMode.INVALID
    ensures |c.link.sent| <= 1 && forall m | m in c.link.sent :: TurnsDown(m)
  {
  }

  lemma OutsiderIsNotServed(s: Sys, t: Tid)
    requires Reached(s) && t in s.clients && s.clients[t].talk.mode == ClientMode.INVALID
    ensures t !in s.shared.actors
  {
    SessionsAreAnswered(s, t);
    NoneMade(s.shared.served, s.shared.actors, t);
  }

  lemma NothingToShow(link: Link)
    requires LinkOk(link) && |link.sent| <= 1 && (link.sent != [] ==> TurnsDown(link.sent[0]))
    ensures !link.screen.Running?
  {
    if link.read > 0 {
      assert link.sent[..link.read] == link.sent && link.sent[..0] == [];
    }
  }

  lemma {:induction false} NoneMade(served: seq<Request>, actors: seq<Tid>, t: Tid)
    requires |served| == |actors| && MadeBy(served, actors, t) == []
    ensures t !in actors
  {
    if served != [] {
      var n := |served| - 1;
      NoneMade(served[..n], actors[..n], t);
      assert actors == actors[..n] + [actors[n]];
    }
  }

  // ----- how a session ends -----

  /** After a QUIT, an updater is heard no more: it is the last message that its thread reads. */
  lemma QuitIsLast(s: Sys, t: Tid, i: nat)
    requires Reached(s) && t in s.clients && i < |s.clients[t].talk.asked| && s.clients[t].talk.asked[i].kind == QUIT
    ensures i == |s.clients[t].talk.asked| - 1 && (s.clients[t].pc.Answer? || s.clients[t].pc.Gone?)
  {
    ReachedClient(s, t);
    OnlyUpdatersAsk(s, t);
    LastIsQuit(s.clients[t].talk, s.clients[t].pc, i);
  }

  lemma LastIsQuit(talk: Talk, pc: Pc, i: nat)
    requires QuitOk(talk, pc) && talk.mode == UPDATER && i < |talk.asked| && talk.asked[i].kind == QUIT
    ensures i == |talk.asked| - 1 && (pc.Answer? || pc.Gone?)
  {
  }

  /** The answer to a QUIT is sent, the connection fails, or a frame does not decode. */
  predicate EndsSession(c: Client, e: Event) {
    || (e.Send? && EndsWithQuit(c.talk.asked))
    || e.ArriveError?
    || (e.Arrive? && Decode(e.raw).Err?)
  }

  /** Nothing else ends the session of an updater. */
  lemma SessionEndsExactly(s: Sys, e: Event, s': Sys, t: Tid)
    requires Reached(s) && Step(s, e) == Some(s') && t in s.clients && s.clients[t].talk.mode == UPDATER
    requires !s.clients[t].pc.Gone?
    ensures t in s'.clients && (s'.clients[t].pc.Gone? <==> e.t == t && EndsSession(s.clients[t], e))
  {
    ReachedKeeps(s);
    StepVia(s, e, s');
    if t == e.t {
      ReachedClient(s, t);
      OwnSessionEnds(s, e);
    } else {
      assert s'.clients[t] == s.clients[t].(queue := s'.clients[t].queue);
    }
  }

  lemma OwnSessionEnds(s: Sys, e: Event)
    requires Can(s, e) && e.t in s.clients && s.clients[e.t].talk.mode == UPDATER && !s.clients[e.t].pc.Gone?
    requires EndsOk(s.clients[e.t]) && ModeOk(s.clients[e.t].talk.mode, s.clients[e.t].pc)
    ensures EffectOf(s, e).value.me.pc.Gone? <==> EndsSession(s.clients[e.t], e)
  {
    var eff := EffectOf(s, e).value;
    if e.Arrive? {
      ArriveGoesOn(s.users, s.shared, s.clients[e.t], e.raw, eff);
    } else if e.Send? {
      SendGoesOn(s.shared, s.clients[e.t], e.upto, eff);
    } else if e.Proceed? {
      ServeGoesOn(s.shared, e.t, s.clients[e.t], e.order, eff);
    } else if !e.PopFront? && !e.Display? {
      PcMovesOn(s, e);
    }
  }

  lemma ArriveGoesOn(users: set<string>, sh: Shared, c: Client, raw: string, eff: Effect)
    requires StepArrive(users, sh, c, raw) == Some(eff) && c.talk.mode == UPDATER && ModeOk(c.talk.mode, c.pc)
    ensures eff.me.pc.Gone? <==> Decode(raw).Err?
  {
  }

  lemma SendGoesOn(sh: Shared, c: Client, upto: nat, eff: Effect)
    requires StepSend(sh, c, upto) == Some(eff) && c.talk.mode == UPDATER && EndsOk(c) && ModeOk(c.talk.mode, c.pc)
    ensures eff.me.pc.Gone? <==> EndsWithQuit(c.talk.asked)
  {
  }

  lemma ServeGoesOn(sh: Shared, t: Tid, c: Client, order: seq<Tid>, eff: Effect)
    requires c.pc.Inside? && c.talk.mode == UPDATER && ModeOk(c.talk.mode, c.pc)
    requires StepServe(sh, t, c, order) == Some(eff)
    ensures !eff.me.pc.Gone?
  {
  }

  // ----- how a display goes on -----

  /** A display stays in its loop until a message that its thread tries to send is not sent. */
  lemma LoopEndsExactly(s: Sys, e: Event, s': Sys, t: Tid)
    requires Reached(s) && Step(s, e) == Some(s') && t in s.clients && InLoop(s.clients[t].pc)
    ensures t in s'.clients
    ensures !InLoop(s'.clients[t].pc) <==>
            e.t == t && e.Send? && s'.clients[t].link.sent == s.clients[t].link.sent
  {
    ReachedKeeps(s);
    StepVia(s, e, s');
    if t == e.t {
      ReachedClient(s, t);
      OwnLoopEnds(s, e);
    } else {
      assert s'.clients[t] == s.clients[t].(queue := s'.clients[t].queue);
    }
  }

  lemma OwnLoopEnds(s: Sys, e: Event)
    requires Can(s, e) && e.t in s.clients && InLoop(s.clients[e.t].pc)
    ensures var c, me := s.clients[e.t], EffectOf(s, e).value.me;
            !InLoop(me.pc) <==> e.Send? && me.link.sent == c.link.sent
  {
    var eff := EffectOf(s, e).value;
    if e.Send? {
      SendInLoop(s.shared, s.clients[e.t], e.upto, eff);
    } else if e.PopFront? {
      PopFrontInLoop(s.shared, s.clients[e.t], eff);
    } else if e.Proceed? {
      EnrollInLoop(s.shared, e.t, s.clients[e.t], eff);
    } else if !e.Display? && !e.Arrive? {
      PcMovesOn(s, e);
    }
  }

  lemma EnrollInLoop(sh: Shared, t: Tid, c: Client, eff: Effect)
    requires c.pc.Inside? && c.pc.job.Join? && c.pc.stage != Begin && StepEnroll(sh, t, c) == Some(eff)
    ensures InLoop(eff.me.pc)
  {
  }

  lemma SendInLoop(sh: Shared, c: Client, upto: nat, eff: Effect)
    requires StepSend(sh, c, upto) == Some(eff) && InLoop(c.pc)
    ensures !InLoop(eff.me.pc) <==> eff.me.link.sent == c.link.sent
  {
    assert |c.link.sent + [c.pc.msg]| == |c.link.sent| + 1;
  }

  lemma PopFrontInLoop(sh: Shared, c: Client, eff: Effect)
    requires StepPopFront(sh, c) == Some(eff)
    ensures InLoop(eff.me.pc)
  {
  }

  /** A display whose wait times out is sent a heartbeat next. */
  lemma TimeoutSendsHeartbeat(s: Sys, t: Tid, s': Sys)
    requires Reached(s) && Step(s, Timeout(t)) == Some(s')
    ensures t in s'.clients && s'.clients[t].pc.Sending? && Says(s'.clients[t].pc.msg, DISP_HEARTBEAT, "")
  {
    ReachedKeeps(s);
    StepVia(s, Timeout(t), s');
    TimeoutEffect(s, t);
  }

  lemma TimeoutEffect(s: Sys, t: Tid)
    requires Can(s, Timeout(t))
    ensures EffectOf(s, Timeout(t)).value.me.pc == Sending(HEARTBEAT)
  {
  }
}
