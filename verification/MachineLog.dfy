/** The shared data in every reachable state: requests take effect one after the other, in the
    order of their critical sections, and the broadcast log rebuilds what is stored. */
module MachineLog {
  import opened Wrappers
  import opened Model
  import opened Wire
  import opened WireProofs
  import opened ServerSpec
  import opened ServerProofs
  import opened History
  import opened Machine
  import opened MachineLocks

  // ----- requests come from the decoder -----

  predicate DecodedJob(job: Job) {
    job.Serve? && job.request.NewOrder? ==> WireOrder(job.request.order)
  }

  predicate DecodedPc(pc: Pc) {
    (pc.Want? ==> DecodedJob(pc.job)) && (pc.Inside? ==> DecodedJob(pc.job))
  }

  lemma RequestPcDecoded(raw: string)
    ensures Decode(raw).Ok? ==> DecodedPc(RequestPc(Decode(raw).value))
  {
    if Decode(raw).Ok? {
      DecodeImage(raw, Decode(raw).value);
    }
  }

  ghost predicate Decoded(s: Sys) {
    forall t | t in s.clients :: DecodedPc(s.clients[t].pc)
  }

  lemma DecodedKept(s: Sys, e: Event, s': Sys)
    requires Decoded(s) && Step(s, e) == Some(s')
    ensures Decoded(s')
  {
    StepIsFramed(s, e, s');
    StepQueues(s, e, s');
    OwnDecoded(s, e);
  }

  lemma OwnDecoded(s: Sys, e: Event)
    requires Can(s, e) && DecodedPc(Own(s, e).pc)
    ensures DecodedPc(EffectOf(s, e).value.me.pc)
  {
    if e.Arrive? {
      RequestPcDecoded(e.raw);
    }
  }

  // ----- linearization -----

  /** The request in the middle of its critical section, past its first change. */
  function Progress(pc: Pc): Option<(Request, Stage)> {
    if pc.Inside? && pc.job.Serve? && pc.stage != Begin then Some((pc.job.request, pc.stage)) else None
  }

  function InProgress(s: Sys): Option<(Request, Stage)> {
    if s.shared.lock.Some?
        && s.shared.lock.value in s.clients then Progress(s.clients[s.shared.lock.value].pc) else None
  }

  /** The state between the two changes of a request, or after both. */
  ghost predicate MidRequest(server: State, s0: State, r: Request, stage: Stage) {
    && Start(s0, r).Ok?
    && var first := Start(s0, r).value.state;
       server == if stage == End && Follow(first, r).Some? then Follow(first, r).value.state else first
  }

  /** What a request has broadcast by then. */
  function SaidBy(s0: State, r: Request, stage: Stage): seq<Message>
    requires Start(s0, r).Ok?
  {
    var first := Start(s0, r).value;
    [first.msg] + if stage == End && Follow(first.state, r).Some? then [Follow(first.state, r).value.msg] else []
  }

  /** Between critical sections, the stored orders and the broadcasts are those of the served
      requests, refused ones included, run one after the other from the start. */
  ghost predicate Linear(sh: Shared, progress: Option<(Request, Stage)>) {
    var n := |sh.served|;
    && AdmissibleRun(INITIAL, sh.served)
    && |sh.actors| == n
    && match progress
       case None => sh.server == Run(INITIAL, sh.served) && sh.log == Log(INITIAL, sh.served)
       case Some((r, stage)) =>
         && n > 0 && sh.served[n - 1] == r
         && var s0 := Run(INITIAL, sh.served[..n - 1]);
            MidRequest(sh.server, s0, r, stage) && sh.log == Log(INITIAL, sh.served[..n - 1]) + SaidBy(s0, r, stage)
  }

  predicate IsUpdate(m: Message) {
    m.kind in {DISP_ORDER, DISP_ITEM_UPDATE, DISP_ORDER_UPDATE}
  }

  /** The log is a legal history that leads to the visible orders, and its messages can be sent. */
  ghost predicate Logged(sh: Shared) {
    && LegalLog(sh.log)
    && PointAt(sh.log) == Point(Visible(sh.server.orders), sh.server.next)
    && forall m | m in sh.log :: Sendable(m) && IsUpdate(m)
  }

  lemma LoggedNext(sh: Shared, sh': Shared, m: Message)
    requires Logged(sh) && sh'.log == sh.log + [m]
    requires Sendable(m) && IsUpdate(m) && Legal(PointAt(sh.log), m)
    requires Show(PointAt(sh.log).view, m) == Ok(Visible(sh'.server.orders))
    requires sh'.server.next == sh.server.next + if m.kind == DISP_ORDER then 1 else 0
    ensures Logged(sh')
  {
    LegalNext(sh.log, m);
  }

  /** Only a request under the server mutex touches the stored orders and the log. */
  lemma OthersKeepData(s: Sys, e: Event)
    requires Can(s, e) && !(e.Proceed? && Own(s, e).pc.Inside? && Own(s, e).pc.job.Serve?)
    ensures var sh, sh' := s.shared, EffectOf(s, e).value.shared;
            sh'.server == sh.server && sh'.log == sh.log && sh'.served == sh.served && sh'.actors == sh.actors
    ensures Progress(EffectOf(s, e).value.me.pc) == Progress(Own(s, e).pc)
  {
  }

  lemma ServeKeeps(sh: Shared, t: Tid, c: Client, order: seq<Tid>, eff: Effect)
    requires c.pc.Inside? && c.pc.job.Serve? && DecodedPc(c.pc)
    requires StepServe(sh, t, c, order) == Some(eff)
    requires Linear(sh, Progress(c.pc)) && Logged(sh)
    ensures Linear(eff.shared, Progress(eff.me.pc)) && Logged(eff.shared)
  {
    match c.pc.stage {
      case Begin => BeginKeeps(sh, t, c, order, eff);
      case Between => BetweenKeeps(sh, t, c, order, eff);
      case End => EndKeeps(sh, t, c, order, eff);
    }
  }

  lemma BeginKeeps(sh: Shared, t: Tid, c: Client, order: seq<Tid>, eff: Effect)
    requires c.pc.Inside? && c.pc.job.Serve? && DecodedPc(c.pc) && c.pc.stage == Begin
    requires StepServe(sh, t, c, order) == Some(eff)
    requires Linear(sh, None) && Logged(sh)
    ensures Linear(eff.shared, Progress(eff.me.pc)) && Logged(eff.shared)
  {
    var r := c.pc.job.request;
    if Start(sh.server, r).Ok? {
      BeginLinear(sh, t, r, eff.shared);
      BeginLogged(sh, r, eff.shared);
    } else {
      RefusedLinear(sh, t, r, eff.shared);
    }
  }

  /** A refused request is part of the run and changes nothing. */
  lemma RefusedLinear(sh: Shared, t: Tid, r: Request, sh': Shared)
    requires Linear(sh, None) && Start(sh.server, r).Err?
    requires sh' == sh.(lock := None, served := sh.served + [r], actors := sh.actors + [t])
    ensures Linear(sh', None)
  {
    assert sh'.served[..|sh.served|] == sh.served;
    assert Log(INITIAL, sh.served) + [] == Log(INITIAL, sh.served);
  }

  lemma BeginLinear(sh: Shared, t: Tid, r: Request, sh': Shared)
    requires Linear(sh, None) && Admissible(sh.server, r) && Start(sh.server, r).Ok?
    requires sh'.server == Start(sh.server, r).value.state && sh'.log == sh.log + [Start(sh.server, r).value.msg]
    requires sh'.served == sh.served + [r] && sh'.actors == sh.actors + [t]
    ensures Linear(sh', Some((r, Between)))
  {
    assert sh'.served[..|sh.served|] == sh.served;
    assert SaidBy(sh.server, r, Between) == [Start(sh.server, r).value.msg];
  }

  lemma BeginLogged(sh: Shared, r: Request, sh': Shared)
    requires Linear(sh, None) && Logged(sh) && Admissible(sh.server, r) && Start(sh.server, r).Ok?
    requires sh'.server == Start(sh.server, r).value.state && sh'.log == sh.log + [Start(sh.server, r).value.msg]
    ensures Logged(sh')
  {
    InvOfRun(sh.served);
    StartShows(sh.server, r);
    StartIsLegal(sh.server, r);
    AllVisible(sh.server.orders);
    LoggedNext(sh, sh', Start(sh.server, r).value.msg);
  }

  lemma BetweenKeeps(sh: Shared, t: Tid, c: Client, order: seq<Tid>, eff: Effect)
    requires c.pc.Inside? && c.pc.job.Serve? && c.pc.stage == Between
    requires StepServe(sh, t, c, order) == Some(eff)
    requires Linear(sh, Progress(c.pc)) && Logged(sh)
    ensures Linear(eff.shared, Progress(eff.me.pc)) && Logged(eff.shared)
  {
    BetweenData(sh, c.pc.job.request, eff.shared);
  }

  lemma BetweenData(sh: Shared, r: Request, sh': Shared)
    requires Linear(sh, Some((r, Between))) && Logged(sh)
    requires sh'.served == sh.served && sh'.actors == sh.actors
    requires if Follow(sh.server, r).Some?
             then sh'.server == Follow(sh.server, r).value.state && sh'.log == sh.log + [Follow(sh.server, r).value.msg]
             else sh'.server == sh.server && sh'.log == sh.log
    ensures Linear(sh', Some((r, End))) && Logged(sh')
  {
    var s0 := Run(INITIAL, sh.served[..|sh.served| - 1]);
    BetweenLinear(sh, s0, r, sh');
    if Follow(sh.server, r).Some? {
      BetweenLogged(sh, s0, r, sh');
    }
  }

  lemma BetweenLinear(sh: Shared, s0: State, r: Request, sh': Shared)
    requires Linear(sh, Some((r, Between))) && s0 == Run(INITIAL, sh.served[..|sh.served| - 1])
    requires sh'.served == sh.served && sh'.actors == sh.actors
    requires if Follow(sh.server, r).Some?
             then sh'.server == Follow(sh.server, r).value.state && sh'.log == sh.log + [Follow(sh.server, r).value.msg]
             else sh'.server == sh.server && sh'.log == sh.log
    ensures Linear(sh', Some((r, End)))
  {
    var before, said := Log(INITIAL, sh.served[..|sh.served| - 1]), [Start(s0, r).value.msg];
    if Follow(sh.server, r).Some? {
      assert (before + said) + [Follow(sh.server, r).value.msg] == before + (said + [Follow(sh.server, r).value.msg]);
    }
  }

  lemma BetweenLogged(sh: Shared, s0: State, r: Request, sh': Shared)
    requires Linear(sh, Some((r, Between))) && Logged(sh) && s0 == Run(INITIAL, sh.served[..|sh.served| - 1])
    requires Follow(sh.server, r).Some?
    requires sh'.server == Follow(sh.server, r).value.state && sh'.log == sh.log + [Follow(sh.server, r).value.msg]
    ensures Logged(sh')
  {
    InvOfRun(sh.served[..|sh.served| - 1]);
    FollowShows(s0, r);
    FollowIsLegal(s0, r);
    LoggedNext(sh, sh', Follow(sh.server, r).value.msg);
  }

  lemma EndKeeps(sh: Shared, t: Tid, c: Client, order: seq<Tid>, eff: Effect)
    requires c.pc.Inside? && c.pc.job.Serve? && c.pc.stage == End
    requires StepServe(sh, t, c, order) == Some(eff)
    requires Linear(sh, Progress(c.pc)) && Logged(sh)
    ensures Linear(eff.shared, Progress(eff.me.pc)) && Logged(eff.shared)
  {
    EndData(sh, c.pc.job.request, eff.shared);
  }

  lemma EndData(sh: Shared, r: Request, sh': Shared)
    requires Linear(sh, Some((r, End))) && Logged(sh)
    requires sh' == sh.(server := Finish(sh.server, r), lock := None)
    ensures Linear(sh', None) && Logged(sh')
  {
    var init := sh.served[..|sh.served| - 1];
    var s0 := Run(INITIAL, init);
    InvOfRun(init);
    EndOutcome(s0, r);
    FinishHides(s0, r);
    InvKept(s0, r);
    AllVisible(After(s0, r).orders);
  }

  lemma EndOutcome(s0: State, r: Request)
    requires Start(s0, r).Ok?
    ensures var first := Start(s0, r).value.state;
            var server := if Follow(first, r).Some? then Follow(first, r).value.state else first;
            After(s0, r) == Finish(server, r) && Broadcasts(s0, r) == SaidBy(s0, r, End)
  {
  }

  ghost predicate Recorded(s: Sys) {
    Decoded(s) && Linear(s.shared, InProgress(s)) && Logged(s.shared)
  }

  lemma RecordedKept(s: Sys, e: Event, s': Sys)
    requires Synchronized(s) && Synchronized(s') && Recorded(s) && Step(s, e) == Some(s')
    ensures Recorded(s')
  {
    DecodedKept(s, e, s');
    StepQueues(s, e, s');
    StepIsFramed(s, e, s');
    LockMoves(s, e);
    ProgressMoved(s, e, s');
    if e.Proceed? && Own(s, e).pc.Inside? && Own(s, e).pc.job.Serve? {
      ServeKeeps(s.shared, e.t, s.clients[e.t], e.order, EffectOf(s, e).value);
    } else {
      OthersKeepData(s, e);
    }
  }

  /** The acting thread's own progress is the system's, whenever it is or gets inside. */
  lemma ProgressMoved(s: Sys, e: Event, s': Sys)
    requires Synchronized(s) && Synchronized(s') && Framed(s, e, s')
    requires LockMoved(e.t, Own(s, e).pc, s'.clients[e.t].pc, s.shared.lock, s'.shared.lock)
    ensures if Own(s, e).pc.Inside? || s'.clients[e.t].pc.Inside?
            then InProgress(s) == Progress(Own(s, e).pc) && InProgress(s') == Progress(s'.clients[e.t].pc)
            else InProgress(s) == InProgress(s')
  {
  }
}
