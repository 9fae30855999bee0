/** What a session leaves behind when its client is done with it. */
module PullEndings {
  import opened PullProtocol
  import opened PullSafety
  import opened PullGuarantees

  // ---------------------------------------------------------------- when nothing is left

  /**
   * Steps under which a finished client always tells the server: the
   * connection is not torn down, cancels are published, no status comes for
   * the session, and setup is not given up before the server has opened it.
   */
  predicate Orderly(mode: Mode, s: System, events: seq<Event>)
    requires CanRun(mode, s, events)
    decreases events
  {
    events != [] ==> OrderlyStep(s, events[0]) && Orderly(mode, Step(mode, s, events[0]), events[1..])
  }

  predicate OrderlyStep(s: System, e: Event)
    requires Enabled(s, e)
  {
    match e
    case AtClient(c) =>
      && !c.SettleOnDisconnect? && (MayCancel(c) ==> Cancels(c))
      && (c.Return? || c.SetupFails? ==> s.client.flags.started ==> s.server.open)
    case AtServer(_) => true
    case ToClient => !s.down[0].NoResponders?
    case ToServer(_) => true
    case Close => false
  }

  predicate TerminalIn(down: seq<Down>) {
    exists m :: m in down && m.Reply? && !m.r.Value?
  }

  /** The server has ended the session, or is about to be told. */
  predicate Told(s: System) {
    && (s.client.flags.started && !s.client.pc.Starting? ==> s.server.open)
    && (s.client.flags.cleanedUp ==> s.server.open && (!s.server.active || Cancel in s.up))
    && (s.client.flags.ended ==> s.client.flags.cleanedUp || s.client.log.heard)
    && (s.client.log.heard || TerminalIn(s.down) ==> s.server.terminals == 1)
  }

  lemma {:induction false} OrderlyRunTells(mode: Mode, s: System, events: seq<Event>)
    requires Inv(mode, s) && CanRun(mode, s, events) && Orderly(mode, s, events) && Told(s)
    ensures Told(After(mode, s, events))
    decreases events
  {
    if events != [] {
      StepKeepsInv(mode, s, events[0]);
      OrderlyStepTells(mode, s, events[0]);
      OrderlyRunTells(mode, Step(mode, s, events[0]), events[1..]);
    }
  }

  lemma OrderlyStepTells(mode: Mode, s: System, e: Event)
    requires Inv(mode, s) && Enabled(s, e) && OrderlyStep(s, e) && Told(s)
    ensures Told(Step(mode, s, e))
  {
    match e
    case AtClient(c) => ClientTells(mode, s, c);
    case AtServer(v) => ServerTells(mode, s, v);
    case ToClient => HearingTells(mode, s);
    case ToServer(status) =>
  }

  lemma ServerTells(mode: Mode, s: System, v: ServerEvent)
    requires Inv(mode, s) && Enabled(s, AtServer(v)) && Told(s)
    ensures Told(Step(mode, s, AtServer(v)))
  {
    ServerPublishesOnce(s.server, v);
  }

  lemma HearingTells(mode: Mode, s: System)
    requires Inv(mode, s) && Enabled(s, ToClient) && !s.down[0].NoResponders? && Told(s)
    ensures Told(Step(mode, s, ToClient))
  {
    var m := s.down[0];
    assert m in s.down;
    HearingKeepsFlags(s.client, m);
  }

  lemma HearingKeepsFlags(c: Client, m: Down)
    requires !m.NoResponders?
    ensures var c' := ClientReceive(c, m);
            && c'.flags.started == c.flags.started && c'.flags.cleanedUp == c.flags.cleanedUp
            && (c'.pc.Starting? <==> c.pc.Starting?)
            && (c'.log.heard && !c.log.heard ==> m.Reply? && !m.r.Value?)
            && (c.log.heard ==> c'.log.heard) && (c'.flags.ended ==> c.flags.ended || c'.log.heard)
  {
    if m.Reply? && c.flags.subscribed {
      HearSetsEnded(c, m.r);
      AcceptKeepsFlags(Hear(c, m.r), m.r);
    }
  }

  lemma HearSetsEnded(c: Client, r: Response)
    ensures var c' := Hear(c, r);
            && c'.flags.started == c.flags.started && c'.flags.cleanedUp == c.flags.cleanedUp && c'.pc == c.pc
            && c'.log.heard == (c.log.heard || !r.Value?) && c'.flags.ended == (c.flags.ended || !r.Value?)
  {
    match r
    case Value(_, _) =>
    case Done(_) => assert Hear(c, r).pc == c.pc;
    case Failure(_) => assert Hear(c, r).pc == c.pc;
  }

  lemma AcceptKeepsFlags(c: Client, r: Response)
    ensures var c' := Accept(c, r);
            && c'.flags.started == c.flags.started && c'.flags.cleanedUp == c.flags.cleanedUp
            && (c'.pc.Starting? <==> c.pc.Starting?)
            && c'.log == c.log && c'.flags.ended == c.flags.ended
  {
    if c.pc.Parked? {
      assert Accept(c, r).pc == Resolved(r);
    }
  }

  lemma ClientTells(mode: Mode, s: System, e: ClientEvent)
    requires Inv(mode, s) && Enabled(s, AtClient(e)) && OrderlyStep(s, AtClient(e)) && Told(s)
    ensures Told(Step(mode, s, AtClient(e)))
  {
    var c' := ClientStep(mode, s.client, e).0;
    ClientStepMoves(mode, s.client, e);
    SetupTells(mode, s, e);
    MovesTell(mode, s, e, c', ClientStep(mode, s.client, e).1);
  }

  /** The event cleans up, or may. */
  predicate MayCancel(e: ClientEvent) {
    e.CallNext? || e.SetupDone? || e.SetupFails? || e.Continue? || e.Drained? || e.Return?
  }

  /** Until setup is over nothing is cleaned up behind an unopened session's back. */
  lemma SetupTells(mode: Mode, s: System, e: ClientEvent)
    requires Inv(mode, s) && Enabled(s, AtClient(e)) && OrderlyStep(s, AtClient(e)) && Told(s)
    ensures var c' := ClientStep(mode, s.client, e).0;
            && (c'.flags.started && !c'.pc.Starting? ==> s.server.open)
            && (c'.flags.cleanedUp ==> s.server.open)
  {
    if !s.client.flags.started || s.client.pc.Starting? {
      match e
      case CallNext(_, _) =>
      case SetupDone(_, _) =>
      case SetupFails(_) =>
      case Return(_) =>
      case _ =>
    } else {
      assert s.server.open;
    }
  }

  lemma MovesTell(mode: Mode, s: System, e: ClientEvent, c': Client, out: seq<Request>)
    requires Enabled(s, AtClient(e)) && Told(s) && ServerInv(s.server)
    requires if HandsOut(mode, s.client, e) then c' == HandOut(s.client, s.client.pc.r.k) && out == []
             else Moves(s.client, c', out, Cancels(e)) && (MayCancel(e) ==> Cancels(e))
    requires !MayCancel(e) ==> c'.flags.cleanedUp == s.client.flags.cleanedUp
    requires (c'.flags.started && !c'.pc.Starting? ==> s.server.open) && (c'.flags.cleanedUp ==> s.server.open)
    ensures Told(s.(client := c', up := s.up + out))
  {
  }

  lemma StartsTold(mode: Mode)
    ensures Inv(mode, NEW_SESSION) && Told(NEW_SESSION)
  {
  }

  /** After an orderly run a client that has finished leaves no open session once its requests are in. */
  lemma NoSessionLeftBehind(mode: Mode, s: System, events: seq<Event>)
    requires Inv(mode, s) && Told(s) && CanRun(mode, s, events) && Orderly(mode, s, events)
    ensures var r := After(mode, s, events);
            r.client.flags.cleanedUp && r.up == [] ==> r.server.open && !r.server.active
  {
    OrderlyRunTells(mode, s, events);
  }

  ghost predicate OrderlyRunsEnd(mode: Mode, s: System) {
    forall events | CanRun(mode, s, events) && Orderly(mode, s, events) ::
      var r := After(mode, s, events);
      r.client.flags.cleanedUp && r.up == [] ==> r.server.open && !r.server.active
  }

  lemma ToldRunsEnd(mode: Mode, s: System)
    requires Inv(mode, s) && Told(s)
    ensures OrderlyRunsEnd(mode, s)
  {
    forall events | CanRun(mode, s, events) && Orderly(mode, s, events)
      ensures var r := After(mode, s, events);
              r.client.flags.cleanedUp && r.up == [] ==> r.server.open && !r.server.active
    {
      NoSessionLeftBehind(mode, s, events);
    }
  }

  /** From a new session on. */
  lemma NewSessionEnds(mode: Mode)
    ensures OrderlyRunsEnd(mode, NEW_SESSION)
  {
    StartsTold(mode);
    ToldRunsEnd(mode, NEW_SESSION);
  }

  // ---------------------------------------------------------------- when the session stays

  /** A client that will send nothing more: it has cleaned up, and has returned or been told the end. */
  predicate Silent(c: Client) {
    c.flags.cleanedUp && (c.flags.returned || (c.log.over && c.pc.Idle?))
  }

  /** The consumer stops at the end, and the server's own teardown does not come. */
  predicate LeftAlone(mode: Mode, s: System, events: seq<Event>)
    requires CanRun(mode, s, events)
    decreases events
  {
    events != [] ==> Quiet(s, events[0]) && LeftAlone(mode, Step(mode, s, events[0]), events[1..])
  }

  predicate Quiet(s: System, e: Event) {
    match e
    case AtClient(c) => c.CallNext? ==> s.client.flags.returned
    case AtServer(v) => !v.Cleanup?
    case _ => true
  }

  lemma SilentSendsNothing(mode: Mode, c: Client, e: ClientEvent)
    requires ClientInv(mode, c) && ClientEnabled(c, e) && Silent(c) && (e.CallNext? ==> c.flags.returned)
    ensures var (c', out) := ClientStep(mode, c, e); out == [] && Silent(c')
  {
  }

  lemma SilentHears(mode: Mode, c: Client, m: Down)
    requires ClientInv(mode, c) && Silent(c)
    ensures Silent(ClientReceive(c, m))
  {
  }

  /** No request is coming, and the session is not open yet or at rest. */
  predicate AtRest(s: System) {
    Silent(s.client) && s.up == [] && s.server.phase.Waiting?
  }

  /**
   * Whatever such a session is, it stays: an active one leaks, an ended one is
   * over, and one that opens late stays open.
   */
  lemma {:induction false} SilentSessionStays(mode: Mode, s: System, events: seq<Event>)
    requires Inv(mode, s) && CanRun(mode, s, events) && LeftAlone(mode, s, events) && AtRest(s)
    ensures var r := After(mode, s, events);
            && AtRest(r) && (s.server.open ==> r.server.open)
            && (r.server.active <==> if s.server.open then s.server.active else r.server.open)
    decreases events
  {
    if events != [] {
      StepKeepsInv(mode, s, events[0]);
      SilentStepStays(mode, s, events[0]);
      SilentSessionStays(mode, Step(mode, s, events[0]), events[1..]);
    }
  }

  lemma SilentStepStays(mode: Mode, s: System, e: Event)
    requires Inv(mode, s) && Enabled(s, e) && Quiet(s, e) && AtRest(s)
    ensures var r := Step(mode, s, e);
            && AtRest(r) && (s.server.open ==> r.server.open)
            && (r.server.active <==> if s.server.open then s.server.active else r.server.open)
  {
    if e.AtClient? {
      SilentSendsNothing(mode, s.client, e.c);
    } else if e.ToClient? {
      SilentHears(mode, s.client, s.down[0]);
    }
  }

  /**
   * What ends a session: its generator's end or failure, a response that cannot be
   * published, a cancel, the server's teardown.
   */
  predicate EndsSession(s: System, e: Event)
    requires Enabled(s, e)
  {
    s.server.active &&
    match e
    case AtServer(v) => v.Finishes? || v.Throws? || (v.Yields? && !v.sent) || v.Cleanup?
    case ToServer(_) => s.up[0].Cancel?
    case _ => false
  }

  predicate IsEnded(mode: Mode, s: System, events: seq<Event>)
    requires CanRun(mode, s, events)
    decreases events
  {
    events != [] && (EndsSession(s, events[0]) || IsEnded(mode, Step(mode, s, events[0]), events[1..]))
  }

  lemma StepEnds(mode: Mode, s: System, e: Event)
    requires ServerInv(s.server) && Enabled(s, e)
    ensures var v, v' := s.server, Step(mode, s, e).server;
            && (v.open ==> v'.open)
            && (v.open && !v.active ==> !v'.active)
            && (EndsSession(s, e) ==> v'.open && !v'.active)
            && ((v.open ==> v.active) && !EndsSession(s, e) ==> v'.open ==> v'.active)
  {
    match e
    case AtClient(_) =>
    case AtServer(_) =>
    case ToServer(_) =>
    case _ =>
  }

  /**
   * Nothing else ends one: not a client told the end, not a failed cancel, a
   * status, or a lost connection.
   */
  lemma {:induction false} SessionEndsIff(mode: Mode, s: System, events: seq<Event>)
    requires Inv(mode, s) && CanRun(mode, s, events) && (s.server.open ==> s.server.active)
    ensures var r := After(mode, s, events); r.server.open && !r.server.active <==> IsEnded(mode, s, events)
    decreases events
  {
    if events != [] {
      var s' := Step(mode, s, events[0]);
      StepKeepsInv(mode, s, events[0]);
      StepEnds(mode, s, events[0]);
      if EndsSession(s, events[0]) {
        EndedStaysEnded(mode, s', events[1..]);
      } else {
        SessionEndsIff(mode, s', events[1..]);
      }
    }
  }

  /**
   * So a client that is done leaves a session behind for ever exactly when
   * nothing of this had happened by then.
   */
  lemma LeftBehindIff(mode: Mode, s: System, events: seq<Event>, later: seq<Event>)
    requires Inv(mode, s) && CanRun(mode, s, events) && (s.server.open ==> s.server.active)
    requires var r := After(mode, s, events);
             AtRest(r) && r.server.open && CanRun(mode, r, later) && LeftAlone(mode, r, later)
    ensures After(mode, After(mode, s, events), later).server.active <==> !IsEnded(mode, s, events)
  {
    RunKeepsInv(mode, s, events);
    SessionEndsIff(mode, s, events);
    SilentSessionStays(mode, After(mode, s, events), later);
  }

  // ---------------------------------------------------------------- an early return

  /** The cancel of a client that has returned is on its way to a session not open yet or at rest. */
  predicate CancelOnItsWay(s: System) {
    && s.client.flags.cleanedUp && s.client.flags.returned && s.up == [Cancel]
    && s.server.phase.Waiting? && (s.server.open ==> s.server.active)
  }

  /** The first request to reach the server finds the session open. */
  predicate OpensFirst(mode: Mode, s: System, events: seq<Event>)
    requires CanRun(mode, s, events)
    decreases events
  {
    events != [] &&
    if events[0].ToServer? then s.server.open else OpensFirst(mode, Step(mode, s, events[0]), events[1..])
  }

  /** return() during setup publishes a cancel, unless that fails or the session has ended for the client. */
  lemma EarlyReturnCancels(mode: Mode, s: System, cancelled: bool)
    requires Inv(mode, s) && Enabled(s, AtClient(Return(cancelled))) && !s.server.cleaned
    requires s.client.pc.Starting? && !s.client.flags.returned
    ensures var r := Step(mode, s, AtClient(Return(cancelled)));
            if cancelled && !s.client.flags.ended then CancelOnItsWay(r)
            else AtRest(r) && (r.server.open ==> r.server.active)
  {
    assert s.up == [];
  }

  /**
   * return() during setup, exactly: left alone, the session ends by itself if
   * and only if a cancel went out and the server opened the session before it
   * consumed it; otherwise it is active from the moment it opens, for ever.
   */
  lemma EarlyReturnEndsIff(mode: Mode, s: System, cancelled: bool, events: seq<Event>)
    requires Inv(mode, s) && Enabled(s, AtClient(Return(cancelled))) && !s.server.cleaned
    requires s.client.pc.Starting? && !s.client.flags.returned
    requires var r := Step(mode, s, AtClient(Return(cancelled)));
             CanRun(mode, r, events) && LeftAlone(mode, r, events)
             && After(mode, r, events).up == [] && After(mode, r, events).server.open
    ensures var r := Step(mode, s, AtClient(Return(cancelled)));
            !After(mode, r, events).server.active <==> r.up == [Cancel] && OpensFirst(mode, r, events)
  {
    var r := Step(mode, s, AtClient(Return(cancelled)));
    EarlyReturnCancels(mode, s, cancelled);
    StepKeepsInv(mode, s, AtClient(Return(cancelled)));
    if cancelled && !s.client.flags.ended {
      CancelFate(mode, r, events);
    } else {
      SilentSessionStays(mode, r, events);
      NothingOpensFirst(mode, r, events);
    }
  }

  lemma {:induction false} CancelFate(mode: Mode, s: System, events: seq<Event>)
    requires Inv(mode, s) && CancelOnItsWay(s) && CanRun(mode, s, events) && LeftAlone(mode, s, events)
    requires After(mode, s, events).up == [] && After(mode, s, events).server.open
    ensures !After(mode, s, events).server.active <==> OpensFirst(mode, s, events)
    decreases events
  {
    var r := Step(mode, s, events[0]);
    StepKeepsInv(mode, s, events[0]);
    CancelMoves(mode, s, events[0]);
    if events[0].ToServer? {
      if s.server.open {
        EndedStaysEnded(mode, r, events[1..]);
      } else {
        SilentSessionStays(mode, r, events[1..]);
      }
    } else if events[0].Close? {
      SilentSessionStays(mode, r, events[1..]);
      NothingOpensFirst(mode, r, events[1..]);
    } else {
      CancelFate(mode, r, events[1..]);
    }
  }

  lemma CancelMoves(mode: Mode, s: System, e: Event)
    requires Inv(mode, s) && CancelOnItsWay(s) && Enabled(s, e) && Quiet(s, e)
    ensures var r := Step(mode, s, e);
            if e.ToServer? && s.server.open then r.server.open && !r.server.active && r.up == []
            else if e.ToServer? || e.Close? then AtRest(r) && (s.server.open ==> r.server.active)
            else CancelOnItsWay(r)
  {
    if e.AtClient? {
      SilentSendsNothing(mode, s.client, e.c);
      ClientStepMoves(mode, s.client, e.c);
    }
  }

  lemma {:induction false} EndedStaysEnded(mode: Mode, s: System, events: seq<Event>)
    requires Inv(mode, s) && CanRun(mode, s, events) && s.server.open && !s.server.active
    ensures After(mode, s, events).server.open && !After(mode, s, events).server.active
    decreases events
  {
    if events != [] {
      StepKeepsInv(mode, s, events[0]);
      StepEnds(mode, s, events[0]);
      EndedStaysEnded(mode, Step(mode, s, events[0]), events[1..]);
    }
  }

  lemma {:induction false} NothingOpensFirst(mode: Mode, s: System, events: seq<Event>)
    requires Inv(mode, s) && CanRun(mode, s, events) && LeftAlone(mode, s, events) && AtRest(s)
    ensures !OpensFirst(mode, s, events)
    decreases events
  {
    if events != [] {
      StepKeepsInv(mode, s, events[0]);
      SilentStepStays(mode, s, events[0]);
      NothingOpensFirst(mode, Step(mode, s, events[0]), events[1..]);
    }
  }

  /**
   * return() during setup publishes its cancel before the server listens: the
   * cancel is lost, and the session and the client's response subscription stay.
   */
  lemma ReturnDuringSetupLeaks(mode: Mode) returns (events: seq<Event>, s: System)
    ensures Reaches(mode, events, s) && s.up == [] && s.connected
    ensures s.client.flags.cleanedUp && s.client.log.cancels == 1 && s.client.pc.Idle? && s.client.flags.subscribed
    ensures s.server.active
  {
    events, s := [], NEW_SESSION;
    events, s := Then(mode, events, s, AtClient(CallNext(true, true)));
    events, s := Then(mode, events, s, AtClient(Return(true)));
    events, s := Then(mode, events, s, ToServer(false));
    events, s := Then(mode, events, s, AtServer(Open));
    events, s := Then(mode, events, s, AtClient(SetupDone(true, true)));
  }
}
