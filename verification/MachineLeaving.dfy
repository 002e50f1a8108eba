/** Why a display is removed: its connection failed, or a message was too long for a frame. */
module MachineLeaving {
  import opened Wrappers
  import opened Model
  import opened Protocol
  import opened Machine
  import opened MachineLocks
  import opened MachineFlow
  import opened MachineLinks

  /** A registered client that has left its loop with its connection intact has met a message
      that does not fit a frame, right after those it has sent. */
  ghost predicate LeftOk(c: Client) {
    c.feed.joined && !InLoop(c.pc) && !c.link.broken ==>
      var n := |Updates(c.link.sent)|;
      n < |c.feed.taken| && c.feed.taken[..n] == Updates(c.link.sent) && !Fits(c.feed.taken[n])
  }

  ghost predicate LeftForCause(s: Sys) {
    forall c | c in s.clients :: LeftOk(s.clients[c])
  }

  /** Only a failed send takes a thread out of its display loop. */
  lemma LeavesBySend(s: Sys, e: Event)
    requires Can(s, e) && !e.Send? && LinkOk(Own(s, e).link)
    ensures var c, me := Own(s, e), EffectOf(s, e).value.me;
            me.feed.joined && !InLoop(me.pc) ==>
              && c.feed.joined && !InLoop(c.pc) && me.feed.taken == c.feed.taken
              && me.link.sent == c.link.sent && me.link.broken == c.link.broken
  {
    if e.Display? {
      ReadKeeps(s.clients[e.t].link);
    } else if e.Proceed? {
      ProceedLeaves(s, e, EffectOf(s, e).value);
    } else if PushEvent(e) {
      PushLeaves(s, e, s.clients[e.t], EffectOf(s, e).value);
    }
  }

  lemma PushLeaves(s: Sys, e: Event, c: Client, eff: Effect)
    requires PushEvent(e) && StepPush(s, e, c) == Some(eff)
    ensures eff.me == c.(pc := eff.me.pc) && (InLoop(eff.me.pc) <==> InLoop(c.pc))
  {
  }

  lemma ProceedLeaves(s: Sys, e: Event, eff: Effect)
    requires e.Proceed? && e.t in s.clients && EffectOf(s, e) == Some(eff)
    ensures var c := s.clients[e.t];
            eff.me.feed.joined && !InLoop(eff.me.pc) ==>
              c.feed.joined && !InLoop(c.pc) && eff.me.feed.taken == c.feed.taken && eff.me.link == c.link
  {
  }

  lemma HeartbeatFits()
    ensures Fits(HEARTBEAT)
  {
  }

  lemma SendLeaves(sh: Shared, c: Client, upto: nat, eff: Effect)
    requires ClientOk(c) && LeftOk(c) && StepSend(sh, c, upto) == Some(eff)
    requires BeforeJoin(c.pc) ==> !c.feed.joined
    ensures LeftOk(eff.me)
  {
    var m := Carried(c.pc).value;
    TransmitKeeps(c.link, m, upto);
    HeartbeatFits();
    SentLeaves(c, eff.me, m, Fits(m));
  }

  lemma SentLeaves(c: Client, c': Client, m: Message, fits: bool)
    requires HandsOk(c) && KindOk(c.pc) && (c.pc.Sending? || c.pc.Answer?) && Carried(c.pc) == Some(m)
    requires BeforeJoin(c.pc) ==> !c.feed.joined
    requires c'.feed == c.feed && (c.link.broken ==> c'.link.broken) && (m == HEARTBEAT ==> fits)
             && (!fits ==> !Fits(m))
    requires || (c'.link.sent == c.link.sent + [m] && (c.pc.Sending? ==> c'.pc == Waiting))
             || (c'.link.sent == c.link.sent && (c'.link.broken || !fits))
    ensures LeftOk(c')
  {
  }

  lemma OwnLeaves(s: Sys, e: Event)
    requires Can(s, e) && ClientOk(Own(s, e)) && LeftOk(Own(s, e))
    requires BeforeJoin(Own(s, e).pc) ==> !Own(s, e).feed.joined
    ensures LeftOk(EffectOf(s, e).value.me)
  {
    if e.Send? {
      SendLeaves(s.shared, s.clients[e.t], e.upto, EffectOf(s, e).value);
    } else {
      LeavesBySend(s, e);
    }
  }

  lemma LeftForCauseKept(s: Sys, e: Event, s': Sys)
    requires Synchronized(s) && Flowing(s) && Linked(s) && LeftForCause(s) && Step(s, e) == Some(s')
    ensures LeftForCause(s')
  {
    StepVia(s, e, s');
    if e.Accept? {
      FreshOk();
    }
    OwnLeaves(s, e);
    LeftByParts(s, e, EffectOf(s, e).value, s');
  }

  lemma LeftByParts(s: Sys, e: Event, eff: Effect, s': Sys)
    requires LeftForCause(s) && Via(s, e, eff, s') && LeftOk(eff.me)
    ensures LeftForCause(s')
  {
    forall c | c in s'.clients
      ensures LeftOk(s'.clients[c])
    {
      assert c != e.t ==> s'.clients[c] == s.clients[c].(queue := s'.clients[c].queue);
    }
  }
}
