/** That the end is told, and told after everything: what a pull session does not lose. */
module PullCompleteness {
  import opened Wire
  import opened PullProtocol
  import opened PullSafety
  import opened PullGuarantees

  // ---------------------------------------------------------------- the server tells it

  /**
   * What a stretch of the session publishes, exactly: a yield its value, the end
   * of the generator one `done`, each marked with the callbacks so far; and when
   * that fails, or the generator does, one error, if that can be published.
   */
  lemma ServerTells(v: Server, e: ServerEvent)
    requires ServerInv(v) && ServerEnabled(v, e)
    ensures var out := ServerStep(v, e).1;
            var error := [Reply(Failure(v.published))];
            match e
            case Emit => out == [Callback(v.published)]
            case Yields(true, _) => out == [Reply(Value(v.values, v.published))]
            case Yields(false, reported) => out == if reported then error else []
            case Finishes(true, _) => out == [Reply(Done(v.published))]
            case Finishes(false, reported) => out == if reported then error else []
            case Throws(reported) => out == if reported then error else []
            case Closed(true, true, _) => out == [Reply(Done(v.published))]
            case Closed(_, _, reported) => out == if reported then error else []
            case _ => out == []
  {
  }

  /**
   * What a request does: it advances the generator of an active session, or has
   * it closed, told once; otherwise it finds nobody, and the broker may say so to
   * a `next`, which carries a reply address.
   */
  lemma RequestIsTaken(v: Server, m: Request, status: bool)
    requires ServerInv(v) && (v.active ==> v.phase.Waiting?)
    ensures var (v', out) := ServerReceive(v, m, status);
            match m
            case Next =>
              if v.active then v' == v.(phase := Advancing, advances := v.advances + 1) && out == []
              else v' == v && out == if status then [NoResponders] else []
            case Cancel =>
              && out == []
              && if v.active then v' == v.(phase := Closing, active := false, finished := 1) else v' == v
  {
  }

  /** A cancel that reaches an active session is answered: it is closed, and `done` can be published. */
  lemma CancelIsAnswered(mode: Mode, s: System)
    requires Inv(mode, s) && s.connected && s.server.active && s.server.phase.Waiting? && s.up != [] && s.up[0].Cancel?
    ensures Enabled(s, ToServer(false))
    ensures var taken := Step(mode, s, ToServer(false)); Enabled(taken, AtServer(Closed(true, true, true)))
    ensures var taken := Step(mode, s, ToServer(false));
            var closed := Step(mode, taken, AtServer(Closed(true, true, true)));
            && !closed.server.active && closed.server.terminals == 1 && closed.server.finished == 1
            && closed.down == s.down + [Reply(Done(s.server.published))]
  {
    assert s.down + [] == s.down;
  }

  /** What can happen without the connection: everything that publishes nothing. */
  lemma GoesOnOffline(s: System, e: ClientEvent, v: ServerEvent, status: bool)
    requires !s.connected
    ensures ClientEnabled(s.client, e) &&
            e in {CallNext(false, false), SetupFails(false), Decide, Continue(false, false), PrefetchSent, Flushed,
                  Drained(false), CallbackBegins, CallbackEnds, Return(false), SettleOnDisconnect} ==>
              Enabled(s, AtClient(e))
    ensures ServerEnabled(s.server, v) &&
            v in {Yields(false, false), Finishes(false, false), Throws(false), Closed(true, false, false),
                  Closed(false, false, false), ServerEvent.Cleanup} ==>
              Enabled(s, AtServer(v))
    ensures !s.server.open && s.client.flags.started ==> Enabled(s, AtServer(Open))
  {
  }

  /** The step publishes the session's end. */
  predicate PublishesEnd(e: Event) {
    e.AtServer? &&
    match e.s
    case Yields(sent, reported) => !sent && reported
    case Finishes(sent, reported) => sent || reported
    case Throws(reported) => reported
    case Closed(ok, sent, reported) => (ok && sent) || reported
    case _ => false
  }

  predicate EndPublished(events: seq<Event>) {
    events != [] && (PublishesEnd(events[0]) || EndPublished(events[1..]))
  }

  /** Over any run: one terminal response was published if and only if a step of the session came to publish one. */
  lemma {:induction false} EndPublishedIff(mode: Mode, s: System, events: seq<Event>)
    requires Inv(mode, s) && CanRun(mode, s, events) && s.server.terminals == 0
    ensures After(mode, s, events).server.terminals == One(EndPublished(events))
    decreases events
  {
    if events != [] {
      var s' := Step(mode, s, events[0]);
      StepKeepsInv(mode, s, events[0]);
      StepPublishes(mode, s, events[0]);
      if PublishesEnd(events[0]) {
        EndStaysPublished(mode, s', events[1..]);
      } else {
        EndPublishedIff(mode, s', events[1..]);
      }
    }
  }

  lemma StepPublishes(mode: Mode, s: System, e: Event)
    requires Inv(mode, s) && Enabled(s, e)
    ensures Step(mode, s, e).server.terminals == s.server.terminals + One(PublishesEnd(e))
  {
    if e.AtServer? {
      ServerTells(s.server, e.s);
      ServerPublishesOnce(s.server, e.s);
    }
  }

  lemma {:induction false} EndStaysPublished(mode: Mode, s: System, events: seq<Event>)
    requires Inv(mode, s) && CanRun(mode, s, events) && s.server.terminals == 1
    ensures After(mode, s, events).server.terminals == 1
    decreases events
  {
    if events != [] {
      StepKeepsInv(mode, s, events[0]);
      StepPublishes(mode, s, events[0]);
      EndStaysPublished(mode, Step(mode, s, events[0]), events[1..]);
    }
  }

  // ---------------------------------------------------------------- the client hears it

  predicate IsEnd(m: Down) {
    m.Reply? && !m.r.Value?
  }

  predicate EndIn(down: seq<Down>) {
    exists i :: 0 <= i < |down| && IsEnd(down[i])
  }

  /** The end is the last thing the server sends; only a status may follow. */
  predicate EndsLast(down: seq<Down>) {
    forall i, j :: 0 <= i < j < |down| && IsEnd(down[i]) ==> down[j].NoResponders?
  }

  predicate OnlyStatuses(down: seq<Down>) {
    forall i :: 0 <= i < |down| ==> down[i].NoResponders?
  }

  /** On a live subscription no value is held after a `done`. */
  predicate DoneLast(rs: seq<Response>) {
    forall i, j :: 0 <= i < j < |rs| && rs[i].Done? ==> !rs[j].Value?
  }

  predicate HasDone(rs: seq<Response>) {
    exists i :: 0 <= i < |rs| && rs[i].Done?
  }

  predicate HeldInv(c: Client) {
    && (c.flags.ended && !c.flags.error ==> c.log.heard || c.flags.cleanedUp)
    && (Live(c) && !c.flags.ended ==> c.flags.statusHandler)
    && (Live(c) ==> HeldInOrder(c))
  }

  predicate HeldInOrder(c: Client) {
    && DoneLast(Tail(c))
    && (HasDone(Tail(c)) ==> c.log.heard)
    && (Head(c).Some? && Head(c).value.Done? ==> c.log.heard && Count(Tail(c)) == 0)
    && (c.pc.Draining? && c.pc.r.Done? ==> c.pc.until == |c.chain.appended|)
  }

  lemma {:induction false} CountNone(rs: seq<Response>)
    requires forall i :: 0 <= i < |rs| ==> !rs[i].Value?
    ensures Count(rs) == 0
  {
    if rs != [] {
      CountNone(rs[1..]);
    }
  }

  /** Taking the first held response leaves the others in order. */
  lemma TakeFirst(rs: seq<Response>)
    requires rs != [] && DoneLast(rs)
    ensures DoneLast(rs[1..]) && (HasDone(rs[1..]) || rs[0].Done? ==> HasDone(rs))
    ensures rs[0].Done? ==> Count(rs[1..]) == 0
  {
    assert forall i :: 0 <= i < |rs[1..]| ==> rs[1..][i] == rs[i + 1];
    if rs[0].Done? {
      CountNone(rs[1..]);
    }
  }

  predicate TellInv(s: System) {
    && (s.client.log.sent == 0 && s.client.log.cancels == 0 ==> s.server.terminals == 0 && s.server.phase.Waiting?)
    && EndsLast(s.down)
    && (s.server.terminals == 0 ==> !EndIn(s.down) && !s.client.log.heard)
    && (Live(s.client) && s.connected && s.server.terminals == 1 ==> s.client.log.heard || EndIn(s.down))
    && (s.client.log.heard ==> OnlyStatuses(s.down))
    && (s.server.open && !s.server.active && !s.server.cleaned ==> s.server.finished == 1)
    && HeldInv(s.client)
  }

  lemma StepTells(mode: Mode, s: System, e: Event)
    requires Inv(mode, s) && Enabled(s, e) && TellInv(s)
    ensures TellInv(Step(mode, s, e))
  {
    match e
    case AtClient(c) => ClientTells(mode, s, c);
    case AtServer(v) => SessionTells(mode, s, v);
    case ToClient => HearingTells(mode, s);
    case ToServer(status) => RequestTells(mode, s, status);
    case Close =>
  }

  lemma ClientTells(mode: Mode, s: System, e: ClientEvent)
    requires Inv(mode, s) && Enabled(s, AtClient(e)) && TellInv(s)
    ensures TellInv(Step(mode, s, AtClient(e)))
  {
    ClientStepMoves(mode, s.client, e);
    StreamStep(mode, s.client, e, s.server);
    ClientHolds(mode, s.client, e);
  }

  lemma SessionTells(mode: Mode, s: System, v: ServerEvent)
    requires Inv(mode, s) && Enabled(s, AtServer(v)) && TellInv(s)
    ensures TellInv(Step(mode, s, AtServer(v)))
  {
    var (server, out) := ServerStep(s.server, v);
    ServerTells(s.server, v);
    ServerPublishesOnce(s.server, v);
    if out == [] {
      assert s.down + out == s.down;
    } else {
      assert s.server.terminals == 0 && out == [out[0]];
      AppendEnds(s.down, out[0]);
    }
  }

  lemma AppendEnds(down: seq<Down>, m: Down)
    requires !EndIn(down)
    ensures EndsLast(down + [m]) && (EndIn(down + [m]) <==> IsEnd(m))
  {
    assert (down + [m])[|down|] == m;
    assert forall i :: 0 <= i < |down| ==> (down + [m])[i] == down[i];
  }

  lemma AppendStatus(down: seq<Down>)
    requires EndsLast(down)
    ensures EndsLast(down + [NoResponders]) && (EndIn(down + [NoResponders]) <==> EndIn(down))
    ensures OnlyStatuses(down) ==> OnlyStatuses(down + [NoResponders])
  {
    assert forall i :: 0 <= i < |down| ==> (down + [NoResponders])[i] == down[i];
  }

  lemma RequestTells(mode: Mode, s: System, status: bool)
    requires Inv(mode, s) && Enabled(s, ToServer(status)) && TellInv(s)
    ensures TellInv(Step(mode, s, ToServer(status)))
  {
    var out := ServerReceive(s.server, s.up[0], status).1;
    if out == [] {
      assert s.down + out == s.down;
    } else {
      assert out == [NoResponders];
      AppendStatus(s.down);
    }
  }

  lemma HearingTells(mode: Mode, s: System)
    requires Inv(mode, s) && Enabled(s, ToClient) && TellInv(s)
    ensures TellInv(Step(mode, s, ToClient))
  {
    var m, rest := s.down[0], s.down[1..];
    assert forall i :: 0 <= i < |rest| ==> rest[i] == s.down[i + 1];
    HearingKeepsFlags(s.client, m);
    ReceiveSendsNothing(s.client, m);
    HearingHolds(mode, s.client, m);
  }

  /** Only the end of the stream is heard, and only while subscribed. */
  lemma HearingKeepsFlags(c: Client, m: Down)
    ensures var c' := ClientReceive(c, m);
            && (c'.log.heard <==> c.log.heard || (c.flags.subscribed && IsEnd(m)))
            && (Live(c') <==> Live(c))
  {
    if m.Reply? && c.flags.subscribed {
      var heard := Hear(c, m.r);
      assert heard.flags.subscribed && heard.flags.cleanedUp == c.flags.cleanedUp;
      assert heard.log.heard == (c.log.heard || !m.r.Value?);
      AcceptSame(heard, m.r);
      assert Accept(heard, m.r).flags == heard.flags;
    }
  }

  lemma HearingHolds(mode: Mode, c: Client, m: Down)
    requires ClientInv(mode, c) && HeldInv(c) && (c.log.heard ==> m.NoResponders?)
    ensures HeldInv(ClientReceive(c, m))
  {
    match m
    case Callback(_) =>
    case Reply(r) =>
      if c.flags.subscribed {
        AcceptHolds(mode, Hear(c, r), r);
      }
    case NoResponders =>
      if c.flags.statusHandler {
        AcceptHolds(mode, FailByStatus(c), Failure(0));
      }
  }

  lemma AcceptHolds(mode: Mode, c: Client, r: Response)
    requires (c.pc.Parked? ==> c.queue == []) && HeldInv(c)
    requires (r.Value? ==> !c.log.heard) && (r.Done? ==> c.log.heard)
    ensures HeldInv(Accept(c, r))
  {
    var c' := Accept(c, r);
    if c.pc.Parked? {
      assert c'.pc == Resolved(r) && c'.queue == [] && c'.flags == c.flags && c'.log == c.log;
    } else {
      assert c'.pc == c.pc && c'.queue == c.queue + [r] && c'.flags == c.flags && c'.log == c.log;
      CountAppend(c.queue, r);
    }
  }

  lemma {:induction false} CountAppend(rs: seq<Response>, r: Response)
    ensures Count(rs + [r]) == Count(rs) + One(r.Value?)
  {
    if rs == [] {
      assert rs + [r] == [r] && [r][1..] == [];
    } else {
      assert (rs + [r])[1..] == rs[1..] + [r];
      CountAppend(rs[1..], r);
    }
  }

  lemma ClientHolds(mode: Mode, c: Client, e: ClientEvent)
    requires ClientInv(mode, c) && ClientEnabled(c, e) && HeldInv(c)
    ensures HeldInv(ClientStep(mode, c, e).0)
  {
    match e
    case CallNext(sent, cancelled) => NextHolds(mode, c, sent, cancelled);
    case SetupDone(sent, cancelled) => SetupHolds(mode, c, sent, cancelled);
    case SetupFails(cancelled) => EndHolds(c, cancelled);
    case Decide => AwaitHolds(mode, c);
    case Continue(sent, cancelled) =>
      EndHolds(c, cancelled);
      TakeHolds(mode, c, sent, cancelled);
    case Drained(cancelled) => EndHolds(c, cancelled);
    case Return(cancelled) => ReturnHolds(mode, c, cancelled);
    case SettleOnDisconnect => SettleHolds(mode, c);
    case _ => QuietHolds(mode, c, e);
  }

  lemma QuietHolds(mode: Mode, c: Client, e: ClientEvent)
    requires ClientEnabled(c, e) && HeldInv(c)
    requires e.PrefetchSent? || e.Flushed? || e.CallbackBegins? || e.CallbackEnds?
    ensures HeldInv(ClientStep(mode, c, e).0)
  {
  }

  lemma SetupHolds(mode: Mode, c: Client, sent: bool, cancelled: bool)
    requires ClientInv(mode, c) && c.pc.Starting? && HeldInv(c)
    ensures HeldInv(FinishSetup(c, sent, cancelled).0)
  {
    EndHolds(Subscribe(c), cancelled);
  }

  lemma ReturnHolds(mode: Mode, c: Client, cancelled: bool)
    requires ClientInv(mode, c) && HeldInv(c)
    ensures HeldInv(ReturnEarly(c, cancelled).0)
  {
  }

  lemma SettleHolds(mode: Mode, c: Client)
    requires ClientInv(mode, c) && HeldInv(c)
    ensures HeldInv(SettleParked(c))
  {
  }

  lemma EndHolds(c: Client, cancelled: bool)
    ensures HeldInv(End(c, cancelled).0)
  {
  }

  lemma NextHolds(mode: Mode, c: Client, sent: bool, cancelled: bool)
    requires ClientInv(mode, c) && c.pc.Idle? && HeldInv(c)
    ensures HeldInv(BeginNext(c, sent, cancelled).0)
  {
    EndHolds(c, cancelled);
    if c.flags.started && !c.flags.returned && c.flags.prefetched {
      var ready := SetPrefetched(c, false);
      assert ready.flags == c.flags.(prefetched := false) && ready.queue == c.queue && ready.log == c.log;
      assert ready.pc == c.pc && Tail(ready) == Tail(c) && Head(ready) == Head(c);
      assert Live(ready) <==> Live(c);
      AwaitHolds(mode, ready);
    }
  }

  lemma AwaitHolds(mode: Mode, c: Client)
    requires HeldInv(c) && Head(c).None?
    ensures HeldInv(AwaitResponse(c))
  {
    if Live(c) && c.queue != [] && !c.flags.returned {
      TakeFirst(c.queue);
    }
  }

  lemma TakeHolds(mode: Mode, c: Client, sent: bool, cancelled: bool)
    requires c.pc.Resolved? && HeldInv(c) && HeldInv(End(c, cancelled).0)
    ensures HeldInv(TakeResponse(mode, c, c.pc.r, sent, cancelled).0)
  {
  }

  // ---------------------------------------------------------------- what a run keeps

  lemma StartsTelling()
    ensures TellInv(NEW_SESSION)
  {
  }

  lemma {:induction false} ReachesTelling(mode: Mode, events: seq<Event>, s: System)
    requires Reaches(mode, events, s)
    ensures Inv(mode, s) && TellInv(s)
    decreases |events|
  {
    Reachable(mode, events, s);
    if events == [] {
      StartsTelling();
    } else {
      var before, last := events[..|events| - 1], events[|events| - 1];
      var r :| Reaches(mode, before, r) && Enabled(r, last) && s == Step(mode, r, last);
      ReachesTelling(mode, before, r);
      StepTells(mode, r, last);
    }
  }

  /**
   * A subscribed client that has received everything on a live connection has
   * heard the end, if there was one, and waits no longer.
   */
  lemma EndIsHeard(mode: Mode, events: seq<Event>, s: System)
    requires Reaches(mode, events, s) && s.connected && Live(s.client) && s.down == []
    ensures s.client.log.heard <==> s.server.terminals == 1
    ensures s.server.terminals == 1 ==> s.client.flags.ended && !s.client.pc.Parked?
  {
    ReachesTelling(mode, events, s);
  }

  /** The end as a response in hand: about to be told, after the chain with callbacks. */
  predicate AtDone(mode: Mode, c: Client) {
    if mode.Plain? then c.pc.Resolved? && c.pc.r.Done?
    else c.pc.Draining? && c.pc.r.Done? && c.chain.completed >= c.pc.until
  }

  /**
   * Nothing is lost: when a consumer is told a normal end over a live
   * connection, it has been given every value the generator yielded,
   * in order, and every callback published has run to its end.
   */
  lemma EndTellsAll(mode: Mode, events: seq<Event>, s: System)
    requires Reaches(mode, events, s) && s.connected && Live(s.client) && AtDone(mode, s.client)
    ensures s.server.terminals == 1 && |s.client.log.delivered| == s.server.values
    ensures forall i :: 0 <= i < |s.client.log.delivered| ==> s.client.log.delivered[i] == i
    ensures |s.client.chain.appended| == s.server.published
    ensures mode.Callbacks? ==> s.client.chain.completed == s.server.published
  {
    ReachesTelling(mode, events, s);
    OnlyStatusesLeft(s.down, Total(s.client), |s.client.chain.appended|, s.server);
  }

  lemma {:induction false} OnlyStatusesLeft(down: seq<Down>, n: nat, a: nat, v: Server)
    requires OnlyStatuses(down) && Ordered(down, n, a, v)
    ensures n == v.values && a == v.published
  {
    if down != [] {
      assert forall i :: 0 <= i < |down[1..]| ==> down[1..][i] == down[i + 1];
      OnlyStatusesLeft(down[1..], n, a, v);
    }
  }

  /** onFinished has run, once, for every session that has ended other than by the server's cleanup. */
  lemma EndIsFinished(mode: Mode, events: seq<Event>, s: System)
    requires Reaches(mode, events, s)
    ensures s.server.finished == 1 ==> s.server.open && !s.server.active
    ensures s.server.open && !s.server.active && !s.server.cleaned ==> s.server.finished == 1
  {
    ReachesTelling(mode, events, s);
  }

  /** Setup that is not overtaken by return() subscribes, listens for a status, and asks for the first batch. */
  lemma SetupSubscribes(mode: Mode, c: Client, cancelled: bool)
    requires ClientInv(mode, c) && c.pc.Starting? && !c.flags.returned
    ensures var (c', out) := ClientStep(mode, c, SetupDone(true, cancelled));
            Live(c') && c'.flags.statusHandler && c'.pc.Sent? && out == [Next]
  {
  }

  /** A setup that fails ends the call: cleaned up, unsubscribed, a session not known to have ended cancelled. */
  lemma SetupFailureEnds(mode: Mode, c: Client, cancelled: bool)
    requires ClientInv(mode, c) && c.pc.Starting?
    ensures var (c', out) := ClientStep(mode, c, SetupFails(cancelled));
            && c'.pc.Idle? && c'.log.over && c'.flags.cleanedUp && c'.flags.ended && !c'.flags.subscribed
            && out == if cancelled && !c.flags.cleanedUp && !c.flags.ended then [Cancel] else []
  {
  }

  /** A response that arrives is what a waiting call gets; what is not for a waiting call is kept in order. */
  lemma ArrivalIsTaken(mode: Mode, s: System)
    requires Enabled(s, ToClient) && Live(s.client)
    ensures var s', m := Step(mode, s, ToClient), s.down[0];
            && s'.down == s.down[1..] && s'.server == s.server && s'.up == s.up
            && match m
               case Callback(n) => s'.client.chain.appended == s.client.chain.appended + [n]
               case Reply(r) =>
                 if s.client.pc.Parked? then s'.client.pc == Resolved(r) && s'.client.queue == s.client.queue
                 else s'.client.queue == s.client.queue + [r] && s'.client.pc == s.client.pc
               case NoResponders => s'.client.chain == s.client.chain
  {
    if s.down[0].Reply? {
      assert Hear(s.client, s.down[0].r).pc == s.client.pc && Hear(s.client, s.down[0].r).queue == s.client.queue;
    }
  }

  /** A status fails the call that waits; a client waits only with its status handler in place. */
  lemma StatusFailsWaiting(mode: Mode, events: seq<Event>, s: System)
    requires Reaches(mode, events, s) && Live(s.client) && s.client.pc.Parked?
    requires s.down != [] && s.down[0].NoResponders?
    ensures Enabled(s, ToClient)
    ensures var c := Step(mode, s, ToClient).client;
            c.pc == Resolved(Failure(0)) && c.flags.ended && c.flags.error && !c.flags.statusHandler
  {
    ReachesTelling(mode, events, s);
  }

  /**
   * What tells the consumer the end: its own return(), an error, a request that
   * could not be published, or a `done`; and with callbacks a `done` only after
   * the chain was awaited.
   */
  lemma OnlyTheseTellEnd(mode: Mode, c: Client, e: ClientEvent)
    requires ClientInv(mode, c) && ClientEnabled(c, e) && !c.log.over && ClientStep(mode, c, e).0.log.over
    ensures match e
            case Return(_) => true
            case Drained(_) => AtDone(mode, c)
            case Continue(_, _) => c.flags.returned || c.pc.r.Failure? || AtDone(mode, c)
            case Decide => c.flags.error && c.queue == []
            case CallNext(sent, _) => if c.flags.prefetched then c.flags.error && c.queue == [] else !sent
            case SetupDone(sent, _) => c.flags.returned || !sent
            case SetupFails(_) => true
            case _ => false
  {
    match e
    case CallNext(sent, cancelled) => BeginNextMoves(c, sent, cancelled);
    case SettleOnDisconnect => SettleMoves(c);
    case _ =>
  }

  // ---------------------------------------------------------------- and the consumer can read up to it

  /** A call under way, or to come, of a client that knows of the end. */
  predicate Reading(s: System) {
    && s.connected && s.client.flags.started && s.client.flags.ended && !s.client.flags.returned
    && !s.client.pc.Starting? && !s.client.pc.Parked?
  }

  /** Only the client has moved, and what it was given stays. */
  predicate ReadOn(s: System, s': System) {
    s'.server == s.server && s'.down == s.down && s.client.log.delivered <= s'.client.log.delivered
  }

  /** The chain can run on to any of its callbacks. */
  lemma {:induction false} ChainRuns(mode: Mode, events: seq<Event>, s: System, n: nat)
    returns (events': seq<Event>, s': System)
    requires Reaches(mode, events, s) && n <= |s.client.chain.appended|
    ensures Reaches(mode, events', s') && s'.client.chain.completed >= n
    ensures s' == s.(client := s.client.(chain := s'.client.chain))
    decreases 2 * n - s.client.chain.begun - s.client.chain.completed
  {
    Reachable(mode, events, s);
    events', s' := events, s;
    if s.client.chain.completed < n {
      var e := if s.client.chain.completed < s.client.chain.begun then CallbackEnds else CallbackBegins;
      ChainMoves(mode, s, e);
      events', s' := Then(mode, events, s, AtClient(e));
      events', s' := ChainRuns(mode, events', s', n);
    }
  }

  lemma ChainMoves(mode: Mode, s: System, e: ClientEvent)
    requires Enabled(s, AtClient(e)) && (e.CallbackBegins? || e.CallbackEnds?)
    ensures var s' := Step(mode, s, AtClient(e));
            && s' == s.(client := s.client.(chain := s'.client.chain))
            && s'.client.chain.appended == s.client.chain.appended
            && s'.client.chain.begun + s'.client.chain.completed == s.client.chain.begun + s.client.chain.completed + 1
  {
    assert s.up + [] == s.up;
  }

  /** A response in hand is dealt with: the end is told, or its value handed out. */
  lemma FinishesHeld(mode: Mode, events: seq<Event>, s: System) returns (events': seq<Event>, s': System)
    requires Reaches(mode, events, s) && Reading(s) && (s.client.pc.Resolved? || Holding(s.client.pc))
    ensures Reaches(mode, events', s') && ReadOn(s, s') && (s'.client.log.over || HandedOver(s, s'))
    ensures s.client.pc.r.Value? || s'.client.log.over
  {
    Reachable(mode, events, s);
    events', s' := events, s;
    if s.client.pc.Resolved? {
      Continues(mode, s);
      events', s' := Then(mode, events, s, AtClient(Continue(true, true)));
    }
    if Holding(s'.client.pc) && !s'.client.log.over {
      events', s' := FinishesBatch(mode, events', s');
    }
  }

  predicate HandedOver(s: System, s': System) {
    Reading(s') && s'.client.pc.Idle? && s'.client.queue == s.client.queue
  }

  /** A batch in hand: prefetched or not, its callbacks are awaited, and then it is handed out. */
  lemma FinishesBatch(mode: Mode, events: seq<Event>, s: System) returns (events': seq<Event>, s': System)
    requires Reaches(mode, events, s) && Reading(s) && Holding(s.client.pc)
    ensures Reaches(mode, events', s') && ReadOn(s, s') && (s'.client.log.over || HandedOver(s, s'))
    ensures s.client.pc.r.Value? || s'.client.log.over
  {
    events', s' := FlushesBatch(mode, events, s);
    Reachable(mode, events', s');
    var held := s';
    events', s' := ChainRuns(mode, events', held, held.client.pc.until);
    Reachable(mode, events', s');
    assert Reading(s') && s'.client.pc == held.client.pc && s'.client.queue == held.client.queue;
    assert ReadOn(s, s');
    Drains(mode, s');
    var drained := s';
    events', s' := Then(mode, events', drained, AtClient(Drained(true)));
  }

  lemma FlushesBatch(mode: Mode, events: seq<Event>, s: System) returns (events': seq<Event>, s': System)
    requires Reaches(mode, events, s) && Reading(s) && Holding(s.client.pc)
    ensures Reaches(mode, events', s') && ReadOn(s, s') && Reading(s') && s'.client.queue == s.client.queue
    ensures s'.client.pc.Draining? && s'.client.pc.r == s.client.pc.r
  {
    events', s' := events, s;
    if s'.client.pc.Prefetching? {
      HeldMoves(mode, s', PrefetchSent);
      events', s' := Then(mode, events', s', AtClient(PrefetchSent));
    }
    if s'.client.pc.Flushing? {
      HeldMoves(mode, s', Flushed);
      events', s' := Then(mode, events', s', AtClient(Flushed));
    }
  }

  lemma HeldMoves(mode: Mode, s: System, e: ClientEvent)
    requires Reading(s) && Enabled(s, AtClient(e)) && (e.PrefetchSent? || e.Flushed?)
    ensures var s' := Step(mode, s, AtClient(e));
            && ReadOn(s, s') && Reading(s') && s'.client.queue == s.client.queue && s'.client.log == s.client.log
            && (if e.Flushed? then s'.client.pc.Draining? else s'.client.pc.Flushing?)
            && s'.client.pc.r == s.client.pc.r
  {
  }

  lemma Drains(mode: Mode, s: System)
    requires Inv(mode, s) && Reading(s) && s.client.pc.Draining? && s.client.chain.completed >= s.client.pc.until
    ensures Enabled(s, AtClient(Drained(true)))
    ensures var s' := Step(mode, s, AtClient(Drained(true)));
            ReadOn(s, s') && if s.client.pc.r.Value? then HandedOver(s, s') else s'.client.log.over
  {
  }

  lemma Continues(mode: Mode, s: System)
    requires Inv(mode, s) && Reading(s) && s.client.pc.Resolved?
    ensures Enabled(s, AtClient(Continue(true, true)))
    ensures var s' := Step(mode, s, AtClient(Continue(true, true)));
            && ReadOn(s, s') && s'.client.queue == s.client.queue
            && (s'.client.log.over || (Reading(s') && (s'.client.pc.Idle? || s'.client.pc.Flushing?)))
            && (s'.client.pc.Flushing? ==> s'.client.pc.r == s.client.pc.r)
            && (s'.client.pc.Idle? ==> s.client.pc.r.Value? || s'.client.log.over)
  {
  }

  /**
   * No call is left hanging: once a client knows of the end, its calls of next()
   * come through without the server, until one is told the end.
   */
  lemma {:induction false} ReadsToEnd(mode: Mode, events: seq<Event>, s: System)
    returns (events': seq<Event>, s': System)
    requires Reaches(mode, events, s) && Reading(s)
    ensures Reaches(mode, events', s') && ReadOn(s, s') && s'.client.log.over
    decreases |s.client.queue|, s.client.pc.Resolved? || Holding(s.client.pc)
  {
    Reachable(mode, events, s);
    events', s' := events, s;
    if s.client.log.over {
      return;
    }
    if s.client.pc.Resolved? || Holding(s.client.pc) {
      events', s' := FinishesHeld(mode, events, s);
      if !s'.client.log.over {
        events', s' := ReadsToEnd(mode, events', s');
      }
    } else {
      events', s' := ReadsOne(mode, events, s);
      if !s'.client.log.over && s.client.queue == [] {
        var read := s';
        events', s' := FinishesHeld(mode, events', read);
      } else if !s'.client.log.over {
        events', s' := ReadsToEnd(mode, events', s');
      }
    }
  }

  /** A call of next() takes the first queued response; with none it is told the end. */
  lemma ReadsOne(mode: Mode, events: seq<Event>, s: System) returns (events': seq<Event>, s': System)
    requires Reaches(mode, events, s) && Reading(s) && (s.client.pc.Idle? || s.client.pc.Sent?)
    ensures Reaches(mode, events', s') && ReadOn(s, s')
    ensures s'.client.log.over ||
            (Reading(s') && s'.client.pc.Resolved? &&
              if s.client.queue == [] then s'.client.queue == [] && s'.client.pc.r == Done(0)
              else |s'.client.queue| < |s.client.queue|)
  {
    Reachable(mode, events, s);
    events', s' := events, s;
    if s'.client.pc.Idle? {
      events', s' := Then(mode, events', s', AtClient(CallNext(true, true)));
    }
    if s'.client.pc.Sent? {
      events', s' := Then(mode, events', s', AtClient(Decide));
    }
  }

  // ---------------------------------------------------------------- prefetch

  /**
   * With prefetch the request for the next batch goes out before this one's
   * callbacks are awaited; the next call takes it up and sends none.
   */
  lemma PrefetchAsksAhead(mode: Mode, c: Client, cancelled: bool, sent: bool)
    requires ClientInv(mode, c) && Prefetches(mode) && !c.flags.returned && !c.flags.ended
    requires c.pc.Resolved? && c.pc.r.Value?
    ensures var (asked, out) := ClientStep(mode, c, Continue(true, cancelled));
            && out == [Next] && asked.pc.Prefetching?
            && var held := ClientStep(mode, ClientStep(mode, asked, PrefetchSent).0, Flushed).0;
               && held.pc.Draining? && held.pc.r == c.pc.r && held.log.sent == c.log.sent + 1
               && var given := HandOut(held, held.pc.r.k);
                  && given.flags.prefetched
                  && ClientStep(mode, given, CallNext(sent, cancelled)).1 == []
                  && !ClientStep(mode, given, CallNext(sent, cancelled)).0.flags.prefetched
  {
    TakeKeepsInv(mode, c, true, cancelled);
  }
}
