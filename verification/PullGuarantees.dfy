/** What a pull session promises, over every run from its start. */
module PullGuarantees {
  import opened Wire
  import opened PullProtocol
  import opened PullSafety

  lemma StepKeepsInv(mode: Mode, s: System, e: Event)
    requires Inv(mode, s) && Enabled(s, e)
    ensures Inv(mode, Step(mode, s, e))
  {
    match e
    case AtClient(c) => ClientEventKeepsInv(mode, s, c);
    case AtServer(v) => ServerEventKeepsInv(mode, s, v);
    case ToClient => ToClientKeepsInv(mode, s);
    case ToServer(status) => ToServerKeepsInv(mode, s, status);
    case Close => CloseKeepsInv(mode, s);
  }

  lemma CloseKeepsInv(mode: Mode, s: System)
    requires Inv(mode, s)
    ensures Inv(mode, Step(mode, s, Close))
  {
  }

  lemma {:induction false} RunKeepsInv(mode: Mode, s: System, events: seq<Event>)
    requires Inv(mode, s) && CanRun(mode, s, events)
    ensures Inv(mode, After(mode, s, events))
    decreases events
  {
    if events != [] {
      StepKeepsInv(mode, s, events[0]);
      RunKeepsInv(mode, Step(mode, s, events[0]), events[1..]);
    }
  }

  /** These events, from a new session on, lead to this state. */
  ghost predicate Reaches(mode: Mode, events: seq<Event>, s: System)
    decreases |events|
  {
    if events == [] then s == NEW_SESSION
    else
      var before, last := events[..|events| - 1], events[|events| - 1];
      exists r :: Reaches(mode, before, r) && Enabled(r, last) && s == Step(mode, r, last)
  }

  lemma {:induction false} Reachable(mode: Mode, events: seq<Event>, s: System)
    requires Reaches(mode, events, s)
    ensures Inv(mode, s)
    decreases |events|
  {
    if events != [] {
      var before, last := events[..|events| - 1], events[|events| - 1];
      var r :| Reaches(mode, before, r) && Enabled(r, last) && s == Step(mode, r, last);
      Reachable(mode, before, r);
      StepKeepsInv(mode, r, last);
    }
  }

  lemma {:induction false} Extend(mode: Mode, s: System, events: seq<Event>, e: Event)
    requires CanRun(mode, s, events) && Enabled(After(mode, s, events), e)
    ensures CanRun(mode, s, events + [e])
    ensures After(mode, s, events + [e]) == Step(mode, After(mode, s, events), e)
    decreases events
  {
    if events == [] {
      assert events + [e] == [e] && [e][1..] == [];
      assert After(mode, Step(mode, s, e), []) == Step(mode, s, e);
    } else {
      assert (events + [e])[0] == events[0] && (events + [e])[1..] == events[1..] + [e];
      Extend(mode, Step(mode, s, events[0]), events[1..], e);
    }
  }

  lemma {:induction false} RunPrefix(mode: Mode, s: System, events: seq<Event>, e: Event)
    requires CanRun(mode, s, events + [e])
    ensures CanRun(mode, s, events) && Enabled(After(mode, s, events), e)
    ensures After(mode, s, events + [e]) == Step(mode, After(mode, s, events), e)
    decreases events
  {
    if events == [] {
      assert events + [e] == [e];
      Extend(mode, s, events, e);
    } else {
      assert (events + [e])[0] == events[0] && (events + [e])[1..] == events[1..] + [e];
      RunPrefix(mode, Step(mode, s, events[0]), events[1..], e);
    }
  }

  /** Reaching a state is running the events: a new session can, and they end there. */
  lemma {:induction false} ReachesByRun(mode: Mode, events: seq<Event>, start: System, s: System)
    requires start == NEW_SESSION
    ensures Reaches(mode, events, s) <==> CanRun(mode, start, events) && After(mode, start, events) == s
    decreases |events|
  {
    if events != [] {
      var before, last := events[..|events| - 1], events[|events| - 1];
      assert events == before + [last];
      if r :| Reaches(mode, before, r) && Enabled(r, last) && s == Step(mode, r, last) {
        ReachesByRun(mode, before, start, r);
        Extend(mode, start, before, last);
      }
      if CanRun(mode, start, events) {
        RunPrefix(mode, start, before, last);
        ReachesByRun(mode, before, start, After(mode, start, before));
      }
    }
  }

  // ---------------------------------------------------------------- ordered delivery

  /** The consumer is given a prefix of the generator's output: no loss, no repetition. */
  lemma DeliversPrefix(mode: Mode, events: seq<Event>, s: System)
    requires Reaches(mode, events, s)
    ensures forall i :: 0 <= i < |s.client.log.delivered| ==> s.client.log.delivered[i] == i
    ensures |s.client.log.delivered| <= s.server.values <= s.server.advances
  {
    Reachable(mode, events, s);
  }

  /** Callbacks are queued in publish order and run one at a time. */
  lemma CallbacksInOrder(mode: Mode, events: seq<Event>, s: System)
    requires Reaches(mode, events, s)
    ensures var chain := s.client.chain;
            && (forall i :: 0 <= i < |chain.appended| ==> chain.appended[i] == i)
            && chain.completed <= chain.begun <= |chain.appended| && chain.begun <= chain.completed + 1
  {
    Reachable(mode, events, s);
  }

  /**
   * When next() hands out a boundary, every callback published before that
   * yield has completed. Without prefetch, and with no earlier request still
   * owed a value, nothing later has even been published; otherwise a request for
   * a later batch is out (see OwedRunsPastBoundary).
   */
  lemma BatchBoundary(mode: Mode, events: seq<Event>, s: System, cancelled: bool)
    requires Reaches(mode, events, s)
    requires Enabled(s, AtClient(Drained(cancelled))) && s.client.pc.r.Value?
    ensures var c := s.client;
            && Step(mode, s, AtClient(Drained(cancelled))).client.log.delivered == c.log.delivered + [c.pc.r.k]
            && c.pc.r.k == |c.log.delivered| && c.pc.r.mark <= c.chain.completed
            && (!Prefetches(mode) ==> (c.log.owed == 0 <==> c.log.sent == c.pc.r.k + 1))
            && (!Prefetches(mode) && c.log.owed == 0 ==>
                  && c.chain.completed == c.chain.begun == |c.chain.appended| == c.pc.r.mark == s.server.published
                  && !s.server.phase.Advancing? && s.server.advances == c.pc.r.k + 1)
  {
    Reachable(mode, events, s);
  }

  /** With callbacks, a value is handed out only by the step after the callback chain was awaited. */
  lemma OnlyDrainedHandsOut(mode: Mode, c: Client, e: ClientEvent)
    requires mode.Callbacks? && ClientEnabled(c, e) && ClientStep(mode, c, e).0.log.delivered != c.log.delivered
    ensures e.Drained? && c.pc.r.Value?
  {
    ClientStepMoves(mode, c, e);
  }

  /** A natural end is reported only after the callbacks published before it have completed. */
  lemma EndDrainsCallbacks(mode: Mode, events: seq<Event>, s: System, cancelled: bool)
    requires Reaches(mode, events, s)
    requires Enabled(s, AtClient(Drained(cancelled)))
    ensures s.client.pc.r.mark <= s.client.chain.completed
  {
    Reachable(mode, events, s);
  }

  // ---------------------------------------------------------------- backpressure

  /**
   * The exact account. Every request sent belongs to a value handed out, to the
   * call under way or the batch ahead of it, or to a call that ended without a
   * value; and it has advanced the generator, been dropped, or is on its way.
   */
  lemma RequestsAccount(mode: Mode, events: seq<Event>, s: System)
    requires Reaches(mode, events, s)
    ensures var log := s.client.log;
            && log.sent == |log.delivered| + Out(s.client) + log.owed
            && log.sent == s.server.advances + Nexts(s.up) + s.dropped
            && Out(s.client) <= 1 + One(Prefetches(mode))
            && (log.owed > 0 ==> log.over && Out(s.client) <= 1)
  {
    Reachable(mode, events, s);
  }

  /**
   * The generator runs at most one batch ahead of the boundaries handed out,
   * two with prefetch; not at all, or one with prefetch, while a consumer that
   * has not been told the end holds control. Each request owed adds one.
   */
  lemma Backpressure(mode: Mode, events: seq<Event>, s: System)
    requires Reaches(mode, events, s)
    ensures var boundaries, ahead := |s.client.log.delivered|, One(Prefetches(mode));
            && boundaries <= s.server.advances <= boundaries + 1 + ahead + s.client.log.owed
            && (s.client.pc.Idle? ==> s.server.advances <= boundaries + ahead + s.client.log.owed)
            && (s.client.pc.Idle? && !s.client.log.over ==> s.server.advances <= boundaries + ahead)
            && (s.client.pc.Idle? && !s.client.log.over && !s.client.flags.prefetched ==>
                  s.server.advances == boundaries)
  {
    Reachable(mode, events, s);
  }

  /** `prefetched` counts the request sent for a batch nobody has asked for yet. */
  lemma PrefetchedIsOutstanding(mode: Mode, events: seq<Event>, s: System)
    requires Reaches(mode, events, s)
    ensures var c := s.client;
            c.pc.Idle? && !c.log.over ==> c.log.sent == |c.log.delivered| + One(c.flags.prefetched)
  {
    Reachable(mode, events, s);
  }

  /** No more requests are out than the bound allows: one, and one more with prefetch. */
  predicate Within(mode: Mode, c: Client) {
    c.log.sent <= |c.log.delivered| + 1 + One(Prefetches(mode))
  }

  predicate AlwaysWithin(mode: Mode, s: System, events: seq<Event>)
    requires CanRun(mode, s, events)
    decreases events
  {
    Within(mode, s.client) && (events != [] ==> AlwaysWithin(mode, Step(mode, s, events[0]), events[1..]))
  }

  /** A request goes out while more are owed a value than the mode allows for: any, or with prefetch more than one. */
  predicate Overdraws(mode: Mode, s: System, e: Event)
    requires Enabled(s, e)
  {
    e.AtClient? && ClientStep(mode, s.client, e.c).1 == [Next] && s.client.log.owed > One(Prefetches(mode))
  }

  predicate NeverOverdraws(mode: Mode, s: System, events: seq<Event>)
    requires CanRun(mode, s, events)
    decreases events
  {
    events != [] ==> !Overdraws(mode, s, events[0]) && NeverOverdraws(mode, Step(mode, s, events[0]), events[1..])
  }

  /** A new session satisfies the invariant and is within bounds. */
  lemma StartsWithin(mode: Mode)
    ensures Inv(mode, NEW_SESSION) && Within(mode, NEW_SESSION.client)
  {
  }

  /**
   * When the bound holds, exactly: from a new session, or any state within
   * bounds, it holds in every state of a run if and only if no step overdraws.
   */
  lemma {:induction false} BackpressureIff(mode: Mode, s: System, events: seq<Event>)
    requires Inv(mode, s) && Within(mode, s.client) && CanRun(mode, s, events)
    ensures AlwaysWithin(mode, s, events) <==> NeverOverdraws(mode, s, events)
    decreases events
  {
    if events != [] {
      var s' := Step(mode, s, events[0]);
      StepKeepsInv(mode, s, events[0]);
      if events[0].AtClient? {
        ClientStepWithin(mode, s.client, events[0].c, s'.client);
      } else if events[0].ToClient? {
        ReceiveSendsNothing(s.client, s.down[0]);
      }
      if Within(mode, s'.client) {
        BackpressureIff(mode, s', events[1..]);
      }
    }
  }

  /** The bound holds along a run exactly when no step overdraws, and always for a polite consumer. */
  ghost predicate BoundIsExact(mode: Mode, s: System) {
    forall events | CanRun(mode, s, events) ::
      && (AlwaysWithin(mode, s, events) <==> NeverOverdraws(mode, s, events))
      && (Polite(mode, s, events) ==> AlwaysWithin(mode, s, events))
  }

  lemma WithinIsExact(mode: Mode, s: System)
    requires Inv(mode, s) && Within(mode, s.client)
    ensures BoundIsExact(mode, s)
  {
    forall events | CanRun(mode, s, events)
      ensures AlwaysWithin(mode, s, events) <==> NeverOverdraws(mode, s, events)
      ensures Polite(mode, s, events) ==> AlwaysWithin(mode, s, events)
    {
      BackpressureIff(mode, s, events);
      if Polite(mode, s, events) {
        PoliteNeverOverdraws(mode, s, events);
      }
    }
  }

  /** From a new session on. */
  lemma NewSessionIsExact(mode: Mode)
    ensures BoundIsExact(mode, NEW_SESSION)
  {
    StartsWithin(mode);
    WithinIsExact(mode, NEW_SESSION);
  }

  lemma ClientStepWithin(mode: Mode, c: Client, e: ClientEvent, c': Client)
    requires ClientInv(mode, c) && ClientEnabled(c, e) && Within(mode, c)
    requires c' == ClientStep(mode, c, e).0 && ClientInv(mode, c')
    ensures Within(mode, c') <==> !(ClientStep(mode, c, e).1 == [Next] && c.log.owed > One(Prefetches(mode)))
  {
    ClientStepMoves(mode, c, e);
    if ClientStep(mode, c, e).1 == [Next] {
      SendingState(mode, c, e);
    }
  }

  /** After a request went out, it is the call's own or the prefetched one. */
  lemma SendingState(mode: Mode, c: Client, e: ClientEvent)
    requires ClientInv(mode, c) && ClientEnabled(c, e) && ClientStep(mode, c, e).1 == [Next]
    ensures var c' := ClientStep(mode, c, e).0;
            && c'.log.owed == c.log.owed && c'.log.delivered == c.log.delivered
            && (c'.pc.Sent? || (c'.pc.Prefetching? && Prefetches(mode)))
  {
    match e
    case CallNext(sent, cancelled) =>
    case SetupDone(sent, cancelled) =>
    case SetupFails(cancelled) => EndMoves(c, cancelled);
    case Continue(sent, cancelled) => EndMoves(c, cancelled);
    case Drained(cancelled) => EndMoves(c, cancelled);
    case Return(cancelled) => ReturnMoves(c, cancelled);
    case _ =>
  }

  /** A consumer that stops calling next() once told the end. */
  predicate Polite(mode: Mode, s: System, events: seq<Event>)
    requires CanRun(mode, s, events)
    decreases events
  {
    events != [] ==>
      && (events[0].AtClient? && events[0].c.CallNext? ==> !s.client.log.over)
      && Polite(mode, Step(mode, s, events[0]), events[1..])
  }

  /** Such a consumer never overdraws. */
  lemma {:induction false} PoliteNeverOverdraws(mode: Mode, s: System, events: seq<Event>)
    requires Inv(mode, s) && CanRun(mode, s, events) && Polite(mode, s, events)
    ensures NeverOverdraws(mode, s, events)
    decreases events
  {
    if events != [] {
      StepKeepsInv(mode, s, events[0]);
      if events[0].AtClient? {
        SendsBeforeEnd(mode, s.client, events[0].c);
      }
      PoliteNeverOverdraws(mode, Step(mode, s, events[0]), events[1..]);
    }
  }

  lemma SendsBeforeEnd(mode: Mode, c: Client, e: ClientEvent)
    requires ClientInv(mode, c) && ClientEnabled(c, e) && (e.CallNext? ==> !c.log.over)
    ensures ClientStep(mode, c, e).1 == [Next] ==> c.log.owed == 0
  {
    if ClientStep(mode, c, e).1 == [Next] {
      SendingState(mode, c, e);
    }
  }

  // ---------------------------------------------------------------- one terminal, one cancel, one onFinished

  /** Over any run: at most one terminal response, one cancel, one onFinished. */
  lemma AtMostOnce(mode: Mode, events: seq<Event>, s: System)
    requires Reaches(mode, events, s)
    ensures s.server.terminals <= 1 && s.server.finished <= 1 && s.client.log.cancels <= 1
    ensures s.server.terminals == 1 ==> !s.server.active && s.server.phase.Waiting?
  {
    Reachable(mode, events, s);
  }

  /** Once the session is inactive and at rest, the generator is never advanced and nothing more is published. */
  lemma {:induction false} SessionEndIsFinal(mode: Mode, s: System, events: seq<Event>)
    requires Inv(mode, s) && CanRun(mode, s, events)
    requires s.server.open && !s.server.active && s.server.phase.Waiting?
    ensures After(mode, s, events).server == s.server.(cleaned := After(mode, s, events).server.cleaned)
    decreases events
  {
    if events != [] {
      StepKeepsInv(mode, s, events[0]);
      SessionEndIsFinal(mode, Step(mode, s, events[0]), events[1..]);
    }
  }

  /** After cleanup, onFinished never runs. */
  lemma {:induction false} NoFinishAfterCleanup(mode: Mode, s: System, events: seq<Event>)
    requires Inv(mode, s) && CanRun(mode, s, events) && s.server.cleaned
    ensures After(mode, s, events).server.cleaned && After(mode, s, events).server.finished == s.server.finished
    decreases events
  {
    if events != [] {
      StepKeepsInv(mode, s, events[0]);
      NoFinishAfterCleanup(mode, Step(mode, s, events[0]), events[1..]);
    }
  }

  /** A cancel is the first, and no terminal response was heard before it. */
  lemma CancelBeforeTerminal(mode: Mode, events: seq<Event>, s: System, e: ClientEvent)
    requires Reaches(mode, events, s) && Enabled(s, AtClient(e))
    requires Cancel in ClientStep(mode, s.client, e).1
    ensures var log := s.client.log; !log.heard && log.cancels == 0
  {
    Reachable(mode, events, s);
    ClientStepMoves(mode, s.client, e);
  }

  // ---------------------------------------------------------------- where the promises stop

  lemma Then(mode: Mode, events: seq<Event>, s: System, e: Event) returns (events': seq<Event>, s': System)
    requires Reaches(mode, events, s) && Enabled(s, e)
    ensures s' == Step(mode, s, e) && Reaches(mode, events', s')
  {
    events', s' := events + [e], Step(mode, s, e);
    assert events'[..|events|] == events;
  }

  /** A session waiting for its first response. */
  lemma FirstRequest(mode: Mode) returns (events: seq<Event>, s: System)
    ensures Reaches(mode, events, s)
    ensures s.client == Subscribe(StartSetup(NEW_CLIENT)).(pc := Parked, log := NEW_CLIENT.log.(sent := 1))
    ensures s.server == NEW_SERVER.(open := true, active := true) && s.up == [Next] && s.down == [] && s.connected
  {
    events, s := [], NEW_SESSION;
    events, s := Then(mode, events, s, AtClient(CallNext(true, true)));
    events, s := Then(mode, events, s, AtServer(Open));
    events, s := Then(mode, events, s, AtClient(SetupDone(true, true)));
    events, s := Then(mode, events, s, AtClient(Decide));
  }

  /** A client told the end by a teardown, and its generator advanced once for each of n + 1 requests. */
  predicate RunAhead(s: System, n: nat) {
    && s.client.pc.Idle? && s.client.flags.started && s.client.flags.cleanedUp
    && s.client.flags.ended && s.client.flags.error
    && !s.client.flags.returned && !s.client.flags.prefetched && s.client.queue == []
    && s.client.log.delivered == [] && s.client.log.owed == n + 1
    && s.server.open && s.server.active && s.server.phase.Advancing? && s.server.advances == n + 1
    && s.up == [] && s.connected
  }

  /**
   * The run-ahead has no bound: n calls of next() after a teardown failed the
   * first advance the generator n times more.
   */
  lemma {:induction false} LateCallsRunAhead(mode: Mode, n: nat) returns (events: seq<Event>, s: System)
    ensures Reaches(mode, events, s) && RunAhead(s, n)
    ensures s.client.log.delivered == [] && s.server.advances == n + 1 == s.client.log.owed
  {
    if n == 0 {
      events, s := FirstRequest(mode);
      events, s := Then(mode, events, s, AtClient(SettleOnDisconnect));
      events, s := Then(mode, events, s, AtClient(Continue(true, true)));
      events, s := Then(mode, events, s, ToServer(false));
    } else {
      events, s := LateCallsRunAhead(mode, n - 1);
      events, s := OneMoreCall(mode, events, s, n - 1);
    }
  }

  lemma OneMoreCall(mode: Mode, events: seq<Event>, s: System, n: nat) returns (events': seq<Event>, s': System)
    requires Reaches(mode, events, s) && RunAhead(s, n)
    ensures Reaches(mode, events', s') && RunAhead(s', n + 1)
  {
    events', s' := Then(mode, events, s, AtServer(Yields(true, true)));
    events', s' := Then(mode, events', s', AtClient(CallNext(true, true)));
    events', s' := Then(mode, events', s', AtClient(Decide));
    events', s' := Then(mode, events', s', ToServer(false));
  }

  /** A live session with no cancel on its way can take every request that is: the account comes due. */
  lemma {:induction false} RequestsAreTaken(mode: Mode, events: seq<Event>, s: System)
    returns (events': seq<Event>, s': System)
    requires Reaches(mode, events, s) && s.connected && s.server.active && Cancel !in s.up
    ensures Reaches(mode, events', s') && s'.client == s.client
    ensures s'.server.advances == s.server.advances + Nexts(s.up)
    decreases |s.up|
  {
    if s.up == [] {
      events', s' := events, s;
    } else {
      events', s' := OneIsTaken(mode, events, s);
      events', s' := RequestsAreTaken(mode, events', s');
    }
  }

  lemma OneIsTaken(mode: Mode, events: seq<Event>, s: System) returns (events': seq<Event>, s': System)
    requires Reaches(mode, events, s) && s.connected && s.server.active && Cancel !in s.up && s.up != []
    ensures Reaches(mode, events', s') && s'.client == s.client && s'.connected && s'.server.active
    ensures |s'.up| < |s.up| && Cancel !in s'.up
    ensures s'.server.advances + Nexts(s'.up) == s.server.advances + Nexts(s.up)
  {
    events', s' := GeneratorRests(mode, events, s);
    TakesNext(mode, s');
    events', s' := Then(mode, events', s', ToServer(false));
  }

  lemma TakesNext(mode: Mode, s: System)
    requires s.server.active && s.server.phase.Waiting? && s.up != [] && Cancel !in s.up
    ensures Enabled(s, ToServer(false))
    ensures var s' := Step(mode, s, ToServer(false));
            && s'.client == s.client && s'.connected == s.connected && s'.server.active
            && |s'.up| < |s.up| && Cancel !in s'.up
            && s'.server.advances + Nexts(s'.up) == s.server.advances + Nexts(s.up)
  {
    assert s.up[0] in s.up && forall m :: m in s.up[1..] ==> m in s.up;
  }

  /** The generator, if it is advancing, can come to its next yield. */
  lemma GeneratorRests(mode: Mode, events: seq<Event>, s: System) returns (events': seq<Event>, s': System)
    requires Reaches(mode, events, s) && s.connected && s.server.active
    ensures Reaches(mode, events', s') && s'.client == s.client && s'.connected && s'.up == s.up
    ensures s'.server.active && s'.server.phase.Waiting? && s'.server.advances == s.server.advances
  {
    Reachable(mode, events, s);
    events', s' := events, s;
    if s.server.phase.Advancing? {
      events', s' := Then(mode, events, s, AtServer(Yields(true, true)));
    }
  }

  /** So a live session that is out of bounds in requests goes out of bounds in advances. */
  lemma OverdrawnRunsAhead(mode: Mode, events: seq<Event>, s: System) returns (events': seq<Event>, s': System)
    requires Reaches(mode, events, s) && s.connected && s.server.active && Cancel !in s.up && s.dropped == 0
    requires !Within(mode, s.client)
    ensures Reaches(mode, events', s') && s'.client == s.client
    ensures s'.server.advances > |s'.client.log.delivered| + 1 + One(Prefetches(mode))
  {
    Reachable(mode, events, s);
    events', s' := RequestsAreTaken(mode, events, s);
  }

  /**
   * The converse of the strict boundary: while a request is owed, a live session
   * without prefetch that is about to hand out a boundary can be in a later batch
   * before it does.
   */
  lemma OwedRunsPastBoundary(mode: Mode, events: seq<Event>, s: System) returns (events': seq<Event>, s': System)
    requires Reaches(mode, events, s) && s.connected && s.server.active && Cancel !in s.up && s.dropped == 0
    requires !Prefetches(mode) && s.client.pc.Draining? && s.client.pc.r.Value? && s.client.log.owed > 0
    ensures Reaches(mode, events', s') && s'.client == s.client
    ensures s'.server.advances > s'.client.pc.r.k + 1
  {
    Reachable(mode, events, s);
    events', s' := OverdrawnRunsAhead(mode, events, s);
  }

  /** A call failed by a teardown's settlement, its request on the way. */
  lemma LateRequest() returns (events: seq<Event>, s: System)
    ensures Reaches(Callbacks(false), events, s)
    ensures s.client == Client(
                          Idle, Flags(true, false, false, true, true, false, true, false),
                          [], Chain([], 0, 0), Log(1, 0, [], true, false, 1))
    ensures s.server == NEW_SERVER.(open := true, active := true) && s.up == [Next] && s.down == [] && s.connected
  {
    events, s := [], NEW_SESSION;
    events, s := Then(Callbacks(false), events, s, AtClient(CallNext(true, true)));
    events, s := Then(Callbacks(false), events, s, AtServer(Open));
    events, s := Then(Callbacks(false), events, s, AtClient(SetupDone(true, true)));
    events, s := Then(Callbacks(false), events, s, AtClient(SettleOnDisconnect));
    events, s := Then(Callbacks(false), events, s, AtClient(Decide));
  }

  /** Its value arrives late and is queued. */
  lemma LateValue() returns (events: seq<Event>, s: System)
    ensures Reaches(Callbacks(false), events, s)
    ensures s.client == Client(
                          Idle, Flags(true, false, false, true, true, false, true, false),
                          [Value(0, 0)], Chain([], 0, 0), Log(1, 0, [], true, false, 1))
    ensures s.server.active && s.server.phase.Waiting? && s.server.published == 0 && s.server.advances == 1
    ensures s.up == [] && s.down == [] && s.connected
  {
    events, s := LateRequest();
    events, s := Then(Callbacks(false), events, s, ToServer(false));
    events, s := Then(Callbacks(false), events, s, AtServer(Yields(true, true)));
    events, s := Then(Callbacks(false), events, s, ToClient);
  }

  /** The next call has sent its own request and is about to hand out that value. */
  lemma LateBoundary() returns (events: seq<Event>, s: System)
    ensures Reaches(Callbacks(false), events, s)
    ensures s.client == Client(
                          Draining(Value(0, 0), 0), Flags(true, false, false, true, true, false, true, false),
                          [], Chain([], 0, 0), Log(2, 0, [], true, false, 1))
    ensures s.server.active && s.server.phase.Waiting? && s.server.published == 0 && s.server.advances == 1
    ensures s.up == [Next] && s.down == [] && s.connected
  {
    events, s := LateValue();
    events, s := Then(Callbacks(false), events, s, AtClient(CallNext(true, true)));
    events, s := Then(Callbacks(false), events, s, AtClient(Decide));
    events, s := Then(Callbacks(false), events, s, AtClient(Continue(true, true)));
    events, s := Then(Callbacks(false), events, s, AtClient(Flushed));
  }

  /**
   * Such a run: value 0, before which no callback was published, is ready to be
   * handed out while the first callback of a later batch is running.
   */
  lemma LaterBatchBegins() returns (events: seq<Event>, s: System)
    ensures Reaches(Callbacks(false), events, s)
    ensures Enabled(s, AtClient(Drained(true))) && s.client.pc.r == Value(0, 0) && s.client.log.owed == 1
    ensures s.client.chain.completed < s.client.chain.begun && s.server.advances == 2 && s.server.published == 1
  {
    events, s := LateBoundary();
    events, s := Then(Callbacks(false), events, s, ToServer(false));
    events, s := Then(Callbacks(false), events, s, AtServer(Emit));
    events, s := Then(Callbacks(false), events, s, ToClient);
    events, s := Then(Callbacks(false), events, s, AtClient(CallbackBegins));
  }
}
