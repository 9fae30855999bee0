/**
 * The two closures of a pull session as objects: the iterator over its flags
 * and queues, the server's session over its phase, each with what it has
 * published. Their invariants are those of the step system.
 */
module PullObjects {
  import opened Wire
  import opened PullProtocol
  import opened PullSafety

  /** How often a request of a kind has been published. */
  function Published(outbox: seq<Request>, kind: Request): nat {
    if outbox == [] then 0
    else Published(outbox[..|outbox| - 1], kind) + One(outbox[|outbox| - 1] == kind)
  }

  lemma PublishOne(outbox: seq<Request>, r: Request)
    ensures forall kind :: Published(outbox + [r], kind) == Published(outbox, kind) + One(r == kind)
  {
    assert (outbox + [r])[..|outbox|] == outbox;
  }

  function Posted(outbox: seq<Request>, out: seq<Request>): seq<Request> {
    if out == [] then outbox else outbox + [out[0]]
  }

  /** One request more at most; a cancel only as the first, and not after a terminal response was heard. */
  predicate Extends(before: seq<Request>, after: seq<Request>, heard: bool) {
    || after == before
    || after == before + [Next]
    || (after == before + [Cancel] && Published(before, Cancel) == 0 && !heard)
  }

  lemma StepExtends(mode: Mode, c: Client, e: ClientEvent, before: seq<Request>)
    requires ClientInv(mode, c) && ClientEnabled(c, e) && Published(before, Cancel) == c.log.cancels
    ensures Extends(before, Posted(before, ClientStep(mode, c, e).1), c.log.heard)
  {
    ClientStepMoves(mode, c, e);
  }

  /** What a message does to a live iterator: a parked call gets the response, any other waits its turn. */
  predicate Received(before: Client, m: Down, after: Client) {
    match m
    case Callback(n) => after.chain.appended == before.chain.appended + [n] && after.queue == before.queue
    case Reply(r) =>
      && (!r.Value? ==> after.log.heard && after.flags.ended) && (r.Failure? ==> after.flags.error)
      && (r.Value? ==> after.flags == before.flags)
      && after.chain == before.chain
      && if before.pc.Parked? then after.pc == Resolved(r) && after.queue == before.queue
         else after.pc == before.pc && after.queue == before.queue + [r]
    case NoResponders =>
      && after.chain == before.chain
      && (before.flags.statusHandler ==> after.flags.error && after.flags.ended && !after.flags.statusHandler)
      && (!before.flags.statusHandler ==> after == before)
  }

  lemma ReceivedInOrder(c: Client, m: Down)
    ensures c.flags.subscribed ==> Received(c, m, ClientReceive(c, m))
  {
    if m.Reply? {
      assert Hear(c, m.r).pc == c.pc && Hear(c, m.r).queue == c.queue && Hear(c, m.r).chain == c.chain;
    }
  }

  /**
   * A call whose request is out: parked only if the session is open and nothing
   * is queued; given the first queued response, which leaves the queue; failed
   * after an error, its value owed; or done. Nothing is handed out.
   */
  predicate Decided(before: Client, after: Client) {
    && after.flags == before.flags && after.chain == before.chain && after.log.delivered == before.log.delivered
    && match after.pc
       case Parked => !before.flags.returned && !before.flags.ended && before.queue == [] == after.queue
       case Idle =>
         && before.flags.error && before.queue == [] == after.queue
         && after.log.over && after.log.owed == before.log.owed + 1
       case Resolved(r) =>
         && after.log == before.log
         && if before.flags.returned || before.queue == [] then
              (before.flags.returned || before.flags.ended) && r == Done(0) && after.queue == before.queue
            else before.queue == [r] + after.queue
       case _ => false
  }

  lemma ResponseDecided(c: Client)
    ensures Decided(c, AwaitResponse(c))
  {
    if c.queue != [] {
      assert c.queue == [c.queue[0]] + c.queue[1..];
    }
  }

  class PullIterator {
    const mode: Mode
    var pc: Pc
    var started: bool
    var returned: bool
    var cleanedUp: bool
    var ended: bool
    var error: bool
    var prefetched: bool
    var subscribed: bool
    var statusHandler: bool
    var responseQueue: seq<Response>
    var callbackChain: Chain
    /** What has been published on the request subject. */
    var outbox: seq<Request>
    ghost var log: Log

    constructor (mode: Mode)
      ensures this.mode == mode && Abs() == NEW_CLIENT && outbox == [] && Valid()
    {
      this.mode, pc, responseQueue, callbackChain, outbox := mode, Idle, [], Chain([], 0, 0), [];
      started, returned, cleanedUp, ended, error := false, false, false, false, false;
      prefetched, subscribed, statusHandler := false, false, false;
      log := Log(0, 0, [], false, false, 0);
    }

    ghost function Abs(): Client
      reads this
    {
      Client(pc, Flags(started, returned, cleanedUp, ended, error, prefetched, subscribed, statusHandler),
             responseQueue, callbackChain, log)
    }

    /**
     * The flags are consistent, and what was published is accounted for: one
     * cancel at most, and a `next` for every value handed out, every request
     * out, and every one owed.
     */
    ghost predicate Valid()
      reads this
    {
      ClientInv(mode, Abs()) && Tallied()
    }

    ghost predicate Tallied()
      reads this
    {
      Published(outbox, Next) == log.sent && Published(outbox, Cancel) == log.cancels
    }

    method Publish(r: Request)
      requires Tallied()
      modifies this`outbox, this`log
      ensures Tallied() && outbox == old(outbox) + [r]
      ensures log == if r.Cancel? then old(log).(cancels := old(log).cancels + 1)
                     else old(log).(sent := old(log).sent + 1)
    {
      PublishOne(outbox, r);
      outbox := outbox + [r];
      log := if r.Cancel? then log.(cancels := log.cancels + 1) else log.(sent := log.sent + 1);
    }

    /** Unsubscribe; cancel a session that has not ended, and only then. */
    method CleanupOnce(cancelled: bool)
      requires Tallied() && (cleanedUp ==> ended)
      modifies this
      ensures Tallied() && cleanedUp && ended && (!old(cleanedUp) ==> !subscribed && !statusHandler)
      ensures var (c, out) := PullProtocol.CleanupOnce(old(Abs()), cancelled);
              Abs() == c && outbox == Posted(old(outbox), out)
    {
      if cleanedUp {
        return;
      }
      cleanedUp, statusHandler, subscribed := true, false, false;
      if !ended {
        ended := true;
        if cancelled {
          Publish(Cancel);
        }
      }
    }

    /** Clean up and end the call under way; the value of its request is owed. */
    method Stop(cancelled: bool)
      requires Tallied() && (cleanedUp ==> ended)
      modifies this
      ensures Tallied() && pc.Idle? && cleanedUp && log.over
      ensures var (c, out) := End(old(Abs()), cancelled); Abs() == c && outbox == Posted(old(outbox), out)
    {
      CleanupOnce(cancelled);
      log := log.(over := true, owed := log.owed + Out(Abs()));
      pc := Idle;
    }

    /** Publish a `next`; a publish that fails ends the iterator. */
    method Request(sent: bool, cancelled: bool)
      requires Tallied() && (cleanedUp ==> ended)
      modifies this
      ensures Tallied() && (if sent then pc.Sent? else pc.Idle? && log.over)
      ensures var (c, out) := RequestNext(old(Abs()), sent, cancelled); Abs() == c && outbox == Posted(old(outbox), out)
    {
      if sent {
        Publish(Next);
        pc := Sent;
      } else {
        Stop(cancelled);
      }
    }

    /** A call of next(), up to its first await: no value yet, nothing asked for twice, nothing after return(). */
    method NextCalled(sent: bool, cancelled: bool)
      requires Valid() && pc.Idle?
      modifies this
      ensures Valid() && Abs() == ClientStep(mode, old(Abs()), CallNext(sent, cancelled)).0
      ensures Extends(old(outbox), outbox, old(log.heard)) && log.delivered == old(log.delivered)
      ensures old(returned || prefetched) ==> outbox == old(outbox)
      ensures old(prefetched && !returned) ==> Decided(SetPrefetched(old(Abs()), false), Abs())
    {
      StepKeeps(Abs(), CallNext(sent, cancelled), outbox);
      ResponseDecided(SetPrefetched(Abs(), false));
      StartCall(sent, cancelled);
    }

    method StartCall(sent: bool, cancelled: bool)
      requires Tallied() && (cleanedUp ==> ended)
      modifies this
      ensures Tallied() && (old(returned || prefetched) ==> outbox == old(outbox))
      ensures var (c, out) := BeginNext(old(Abs()), sent, cancelled); Abs() == c && outbox == Posted(old(outbox), out)
    {
      if returned {
        return;
      }
      if !started {
        started, pc := true, Starting;
      } else if prefetched {
        prefetched := false;
        TakeOrPark();
      } else {
        Request(sent, cancelled);
      }
    }

    /** What every step keeps, for the step about to be taken. */
    ghost method StepKeeps(c: Client, e: ClientEvent, before: seq<Request>)
      requires Valid() && c == Abs() && before == outbox && ClientEnabled(c, e)
      requires e.Flushed? ==> c.pc.r.mark <= |c.chain.appended|
      ensures var (c', out) := ClientStep(mode, c, e);
              && ClientInv(mode, c') && Extends(before, Posted(before, out), c.log.heard)
              && (HandsOut(mode, c, e) || c'.log.delivered == c.log.delivered)
    {
      ClientStepKeepsInv(mode, c, e);
      ClientStepMoves(mode, c, e);
      StepExtends(mode, c, e, before);
    }

    /** Setup is over: the first request, or the end if return() came first. */
    method SetupCompleted(sent: bool, cancelled: bool)
      requires Valid() && pc.Starting?
      modifies this
      ensures Valid() && Abs() == ClientStep(mode, old(Abs()), SetupDone(sent, cancelled)).0
      ensures Extends(old(outbox), outbox, old(log.heard)) && log.delivered == []
      ensures old(returned) ==> Next !in outbox[|old(outbox)|..]
    {
      StepKeeps(Abs(), SetupDone(sent, cancelled), outbox);
      subscribed, statusHandler := true, true;
      assert Abs() == Subscribe(old(Abs()));
      if returned {
        Stop(cancelled);
      } else {
        Request(sent, cancelled);
      }
    }

    /** Setup has failed: the call ends, and nothing stays subscribed. */
    method SetupFailed(cancelled: bool)
      requires Valid() && pc.Starting?
      modifies this
      ensures Valid() && Abs() == ClientStep(mode, old(Abs()), SetupFails(cancelled)).0
      ensures pc.Idle? && log.over && cleanedUp && ended && !subscribed && log.delivered == []
      ensures Extends(old(outbox), outbox, old(log.heard)) && Next !in outbox[|old(outbox)|..]
    {
      StepKeeps(Abs(), SetupFails(cancelled), outbox);
      Stop(cancelled);
    }

    /**
     * The request is out: what becomes of the call. Only an open session with
     * nothing queued parks it, and no queued response is lost.
     */
    method DecideResponse()
      requires Valid() && pc.Sent?
      modifies this
      ensures Valid() && Abs() == ClientStep(mode, old(Abs()), Decide).0
      ensures outbox == old(outbox) && Decided(old(Abs()), Abs())
    {
      StepKeeps(Abs(), Decide, outbox);
      ResponseDecided(Abs());
      TakeOrPark();
    }

    method TakeOrPark()
      requires Tallied()
      modifies this`pc, this`responseQueue, this`log
      ensures Tallied() && Abs() == AwaitResponse(old(Abs()))
    {
      if returned {
        pc := Resolved(Done(0));
      } else if responseQueue != [] {
        pc := Resolved(responseQueue[0]);
        responseQueue := responseQueue[1..];
      } else if ended {
        if error {
          pc := Idle;
          log := log.(over := true, owed := log.owed + 1);
        } else {
          pc := Resolved(Done(0));
        }
      } else {
        pc := Parked;
      }
    }

    /**
     * The response is there, up to the next await. With callbacks no value is
     * handed out yet: the chain is awaited first.
     */
    method ResponseTaken(sent: bool, cancelled: bool)
      requires Valid() && pc.Resolved?
      modifies this
      ensures Valid() && Abs() == ClientStep(mode, old(Abs()), Continue(sent, cancelled)).0
      ensures Extends(old(outbox), outbox, old(log.heard))
      ensures mode.Callbacks? || old(returned) || !old(pc).r.Value? ==> log.delivered == old(log.delivered)
      ensures old(returned) ==> outbox == old(outbox)
    {
      StepKeeps(Abs(), Continue(sent, cancelled), outbox);
      ActOn(pc.r, sent, cancelled);
    }

    method ActOn(r: Response, sent: bool, cancelled: bool)
      requires Tallied() && (cleanedUp ==> ended)
      modifies this
      ensures Tallied() && (old(returned && cleanedUp) ==> outbox == old(outbox))
      ensures var (c, out) := TakeResponse(mode, old(Abs()), r, sent, cancelled);
              Abs() == c && outbox == Posted(old(outbox), out)
    {
      if returned || r.Failure? {
        Stop(cancelled);
      } else if r.Value? {
        ValueTaken(r, sent);
      } else if mode.Plain? {
        Stop(cancelled);
      } else {
        pc := Flushing(r);
      }
    }

    method ValueTaken(r: Response, sent: bool)
      requires Tallied() && r.Value?
      modifies this
      ensures Tallied()
      ensures var (c, out) := TakeValue(mode, old(Abs()), r, sent); Abs() == c && outbox == Posted(old(outbox), out)
    {
      if mode.Plain? {
        log := log.(delivered := log.delivered + [r.k]);
        pc := Idle;
        return;
      }
      if mode.prefetch && !ended {
        if sent {
          Publish(Next);
          pc := Prefetching(r);
          return;
        }
        prefetched := false;
      }
      pc := Flushing(r);
    }

    /** The publish of the prefetched request has come back. */
    method PrefetchPublished()
      requires Valid() && pc.Prefetching?
      modifies this`pc, this`prefetched
      ensures Valid() && prefetched && Abs() == ClientStep(mode, old(Abs()), PrefetchSent).0
    {
      StepKeeps(Abs(), PrefetchSent, outbox);
      prefetched := true;
      pc := Flushing(pc.r);
    }

    /**
     * Wait for the callback chain as it is now. The connection is in order, so
     * the callbacks the server published before this response are in it.
     */
    method ChainAwaited(ghost v: Server)
      requires Valid() && pc.Flushing? && StreamInv(Abs(), v)
      modifies this`pc
      ensures Valid() && StreamInv(Abs(), v) && Abs() == ClientStep(mode, old(Abs()), Flushed).0
      ensures pc.Draining? && pc.r == old(pc).r && pc.r.mark <= pc.until == |callbackChain.appended|
      ensures forall i :: 0 <= i < pc.r.mark ==> i in callbackChain.appended
    {
      BatchIsQueued(Abs(), v);
      StepKeeps(Abs(), Flushed, outbox);
      QuietKeeps(mode, Abs(), Flushed, v);
      pc := Draining(pc.r, |callbackChain.appended|);
    }

    /** The chain has run out: hand out the boundary, every callback up to its mark completed, or end. */
    method ChainDrained(cancelled: bool)
      requires Valid() && pc.Draining? && callbackChain.completed >= pc.until
      modifies this
      ensures Valid() && Abs() == ClientStep(mode, old(Abs()), Drained(cancelled)).0
      ensures Extends(old(outbox), outbox, old(log.heard)) && old(pc).r.mark <= callbackChain.completed
      ensures log.delivered == if old(pc).r.Value? then old(log.delivered) + [old(pc).r.k] else old(log.delivered)
    {
      StepKeeps(Abs(), Drained(cancelled), outbox);
      if pc.r.Value? {
        log := log.(delivered := log.delivered + [pc.r.k]);
        pc := Idle;
      } else {
        Stop(cancelled);
      }
    }

    /** The next callback of the chain begins, or the one under way completes: one at a time, in order. */
    method CallbackTurn()
      requires Valid()
      requires callbackChain.completed < callbackChain.begun || callbackChain.begun < |callbackChain.appended|
      modifies this`callbackChain
      ensures Valid() && callbackChain.appended == old(callbackChain.appended)
      ensures callbackChain.begun + callbackChain.completed == old(callbackChain.begun + callbackChain.completed) + 1
    {
      if callbackChain.completed < callbackChain.begun {
        callbackChain := callbackChain.(completed := callbackChain.completed + 1);
      } else {
        callbackChain := callbackChain.(begun := callbackChain.begun + 1);
      }
    }

    /** return() and throw(): no call stays parked, and a started iterator is cleaned up. */
    method ReturnCalled(cancelled: bool)
      requires Valid()
      modifies this
      ensures Valid() && Abs() == ClientStep(mode, old(Abs()), Return(cancelled)).0
      ensures Extends(old(outbox), outbox, old(log.heard)) && log.delivered == old(log.delivered)
      ensures returned && !pc.Parked? && (started ==> cleanedUp)
    {
      StepKeeps(Abs(), Return(cancelled), outbox);
      if returned {
        return;
      }
      MarkAsReturned();
      if started {
        CleanupOnce(cancelled);
      }
    }

    method MarkAsReturned()
      requires Tallied()
      modifies this`returned, this`log, this`pc
      ensures Tallied() && Abs() == MarkReturned(old(Abs()))
    {
      returned := true;
      log := log.(over := true);
      if pc.Parked? {
        pc := Resolved(Done(0));
      }
    }

    /** The connection is torn down: a parked call is settled, and nothing is published. */
    method SettleOnTeardown()
      requires Valid() && started
      modifies this
      ensures Valid() && Abs() == ClientStep(mode, old(Abs()), SettleOnDisconnect).0
      ensures !pc.Parked? && ended && !statusHandler && outbox == old(outbox) && log == old(log)
      ensures old(pc).Parked? ==> error && pc == Resolved(Failure(0))
    {
      StepKeeps(Abs(), SettleOnDisconnect, outbox);
      FailParked();
    }

    method FailParked()
      requires Tallied()
      modifies this`statusHandler, this`ended, this`error, this`pc
      ensures Tallied() && Abs() == SettleParked(old(Abs()))
    {
      statusHandler := false;
      if !ended {
        ended, error := true, true;
      }
      if pc.Parked? {
        pc := Resolved(if error then Failure(0) else Done(0));
      }
    }

    /**
     * A message on one of the iterator's subjects, or a status for it: nothing
     * is published or handed out, a terminal response is remembered, callbacks
     * join the chain and responses the queue in the order they come.
     */
    method Receive(m: Down)
      requires Valid() && (log.sent == 0 ==> Blank(m))
      modifies this
      ensures Valid() && Abs() == ClientReceive(old(Abs()), m)
      ensures outbox == old(outbox) && log == old(log).(heard := log.heard)
      ensures old(subscribed) ==> Received(old(Abs()), m, Abs())
    {
      ClientReceiveKeepsInv(mode, Abs(), m);
      ReceivedInOrder(Abs(), m);
      TakeIn(m);
    }

    method TakeIn(m: Down)
      requires Tallied()
      modifies this`callbackChain, this`statusHandler, this`ended, this`error, this`log, this`pc, this`responseQueue
      ensures Tallied() && Abs() == ClientReceive(old(Abs()), m) && log == old(log).(heard := log.heard)
    {
      match m {
        case Callback(n) =>
          if subscribed {
            callbackChain := callbackChain.(appended := callbackChain.appended + [n]);
          }
        case Reply(r) =>
          if subscribed {
            NoteTerminal(r);
            ResolveOrQueue(r);
          }
        case NoResponders =>
          if statusHandler {
            statusHandler, ended, error := false, true, true;
            ResolveOrQueue(Failure(0));
          }
      }
    }

    method NoteTerminal(r: Response)
      requires Tallied()
      modifies this`ended, this`error, this`log
      ensures Tallied() && Abs() == Hear(old(Abs()), r) && log == old(log).(heard := log.heard)
    {
      if !r.Value? {
        ended := true;
        error := error || r.Failure?;
        log := log.(heard := true);
      }
    }

    method ResolveOrQueue(r: Response)
      modifies this`pc, this`responseQueue
      ensures Abs() == Accept(old(Abs()), r)
    {
      if pc.Parked? {
        pc := Resolved(r);
      } else {
        responseQueue := responseQueue + [r];
      }
    }
  }

  // ---------------------------------------------------------------- the session

  function CallbacksIn(outbox: seq<Down>): nat {
    if outbox == [] then 0 else CallbacksIn(outbox[..|outbox| - 1]) + One(outbox[|outbox| - 1].Callback?)
  }

  predicate IsValue(m: Down) {
    m.Reply? && m.r.Value?
  }

  function ValuesIn(outbox: seq<Down>): nat {
    if outbox == [] then 0 else ValuesIn(outbox[..|outbox| - 1]) + One(IsValue(outbox[|outbox| - 1]))
  }

  predicate IsTerminal(m: Down) {
    m.Reply? && !m.r.Value?
  }

  /**
   * Each message follows on those before it: numbered by its kind, marked with the
   * callbacks so far, none after a terminal.
   */
  predicate Numbered(outbox: seq<Down>) {
    outbox == [] ||
    var before, m := outbox[..|outbox| - 1], outbox[|outbox| - 1];
    Numbered(before) && !Terminated(before) && Follows(before, m)
  }

  predicate Follows(before: seq<Down>, m: Down) {
    match m
    case Callback(n) => n == CallbacksIn(before)
    case Reply(r) => r.mark == CallbacksIn(before) && (r.Value? ==> r.k == ValuesIn(before))
    case NoResponders => false
  }

  predicate Terminated(outbox: seq<Down>) {
    outbox != [] && IsTerminal(outbox[|outbox| - 1])
  }

  /** Nothing more, or one terminal message that is the last. */
  predicate EndsWith(before: seq<Down>, after: seq<Down>) {
    || after == before
    || (|after| == |before| + 1 && after[..|before|] == before && !Terminated(before) && Terminated(after))
  }

  /** One error marked with the callbacks so far, if it could be published. */
  predicate ErrorTold(before: seq<Down>, after: seq<Down>, reported: bool) {
    after == if reported then before + [Reply(Failure(CallbacksIn(before)))] else before
  }

  lemma PublishNext(outbox: seq<Down>, m: Down)
    requires Numbered(outbox) && !Terminated(outbox) && Follows(outbox, m)
    ensures Numbered(outbox + [m]) && (Terminated(outbox + [m]) <==> IsTerminal(m))
    ensures CallbacksIn(outbox + [m]) == CallbacksIn(outbox) + One(m.Callback?)
    ensures ValuesIn(outbox + [m]) == ValuesIn(outbox) + One(IsValue(m))
    ensures IsTerminal(m) ==> EndsWith(outbox, outbox + [m])
  {
    assert (outbox + [m])[..|outbox|] == outbox;
  }

  class PullSession {
    var open: bool
    var active: bool
    var cleaned: bool
    var phase: Phase
    var outbox: seq<Down>
    /** Counts of what happened, which also number the messages. */
    var values: nat
    var published: nat
    ghost var advances: nat
    ghost var lastMark: nat
    ghost var terminals: nat
    ghost var finished: nat

    constructor ()
      ensures Abs() == NEW_SERVER && outbox == [] && Valid()
    {
      open, active, cleaned, phase, outbox := false, false, false, Waiting, [];
      advances, values, published, lastMark, terminals, finished := 0, 0, 0, 0, 0, 0;
    }

    ghost function Abs(): Server
      reads this
    {
      Server(open, active, cleaned, phase, advances, values, published, lastMark, terminals, finished)
    }

    /** Finished once at most, and only while active; every message in its place, and a terminal the last of them. */
    ghost predicate Valid()
      reads this
    {
      && ServerInv(Abs())
      && Numbered(outbox)
      && CallbacksIn(outbox) == published && ValuesIn(outbox) == values
      && terminals == One(Terminated(outbox))
    }

    method Publish(m: Down)
      requires Valid() && terminals == 0 && Follows(outbox, m) && !IsTerminal(m)
      modifies this`outbox
      ensures outbox == old(outbox) + [m] && Numbered(outbox) && !Terminated(outbox)
      ensures CallbacksIn(outbox) == published + One(m.Callback?) && ValuesIn(outbox) == values + One(IsValue(m))
    {
      PublishNext(outbox, m);
      outbox := outbox + [m];
    }

    /** The service is asked for this session: requests are answered from here on. */
    method OpenSession()
      requires Valid() && !open
      modifies this`open, this`active
      ensures Valid() && active && Abs() == ServerStep(old(Abs()), ServerEvent.Open).0
    {
      open, active := true, true;
    }

    /** The natural end: told once, and to a session that was not cleaned up. */
    method FinishOnce()
      requires Valid()
      modifies this`active, this`finished
      ensures Valid() && Abs() == Finish(old(Abs())) && !active
      ensures finished == old(finished) + One(old(active)) && (finished > old(finished) ==> finished == 1 && !cleaned)
    {
      if active {
        active := false;
        finished := finished + 1;
      }
    }

    /** A request for a session that is over does nothing but find nobody there; a cancel ends it. */
    method RequestArrives(m: Request, status: bool) returns (noResponders: bool)
      requires Valid() && (active ==> phase.Waiting?)
      modifies this
      ensures Valid() && Abs() == ServerReceive(old(Abs()), m, status).0 && outbox == old(outbox)
      ensures noResponders <==> ServerReceive(old(Abs()), m, status).1 != []
      ensures !old(active) ==> Abs() == old(Abs())
      ensures advances == old(advances) + One(old(active) && m.Next?) && (m.Cancel? ==> !active)
    {
      noResponders := !active && m.Next? && status;
      if !active {
        return;
      }
      if m.Cancel? {
        FinishOnce();
        phase := Closing;
      } else {
        phase := Advancing;
        advances := advances + 1;
      }
    }

    /** A callback of the proxy handed to the generator: published while the session is active, and numbered. */
    method EmitCallback()
      requires Valid() && phase.Advancing? && active
      modifies this`outbox, this`published
      ensures Valid() && outbox == old(outbox) + [Callback(CallbacksIn(old(outbox)))]
      ensures Abs() == ServerStep(old(Abs()), Emit).0 && outbox == old(outbox) + ServerStep(old(Abs()), Emit).1
    {
      Publish(Callback(published));
      published := published + 1;
    }

    /**
     * The generator yielded: the value is numbered by those before it and marked
     * with every callback before it; if it cannot be published the session ends.
     */
    method GeneratorYielded(sent: bool, reported: bool)
      requires Valid() && phase.Advancing?
      modifies this
      ensures Valid() && phase.Waiting?
      ensures sent ==> outbox == old(outbox) + [Reply(Value(ValuesIn(old(outbox)), CallbacksIn(old(outbox))))]
                       && active == old(active)
      ensures !sent ==> !active && finished == old(finished) + One(old(active))
                        && ErrorTold(old(outbox), outbox, reported)
      ensures var (v, out) := ServerStep(old(Abs()), Yields(sent, reported)); Abs() == v && outbox == old(outbox) + out
    {
      if !sent {
        ReportError(reported);
        return;
      }
      Publish(Reply(Value(values, published)));
      values, lastMark, phase := values + 1, published, Waiting;
    }

    /** The generator is done: the session is over before the end is published. */
    method GeneratorFinished(sent: bool, reported: bool)
      requires Valid() && phase.Advancing?
      modifies this
      ensures Valid() && phase.Waiting? && !active
      ensures finished == old(finished) + One(old(active)) && EndsWith(old(outbox), outbox)
      ensures sent ==> outbox == old(outbox) + [Reply(Done(CallbacksIn(old(outbox))))]
      ensures !sent ==> ErrorTold(old(outbox), outbox, reported)
      ensures var (v, out) := ServerStep(old(Abs()), Finishes(sent, reported));
              Abs() == v && outbox == old(outbox) + out
    {
      FinishOnce();
      ReportDone(sent, reported);
    }

    method GeneratorThrew(reported: bool)
      requires Valid() && phase.Advancing?
      modifies this
      ensures Valid() && phase.Waiting? && !active
      ensures finished == old(finished) + One(old(active)) && ErrorTold(old(outbox), outbox, reported)
      ensures var (v, out) := ServerStep(old(Abs()), Throws(reported)); Abs() == v && outbox == old(outbox) + out
    {
      ReportError(reported);
    }

    /** generator.return() after a cancel has come back, or thrown; the session was over already. */
    method GeneratorClosed(ok: bool, sent: bool, reported: bool)
      requires Valid() && phase.Closing?
      modifies this
      ensures Valid() && phase.Waiting? && finished == old(finished) && EndsWith(old(outbox), outbox)
      ensures ok && sent ==> outbox == old(outbox) + [Reply(Done(CallbacksIn(old(outbox))))]
      ensures !(ok && sent) ==> ErrorTold(old(outbox), outbox, reported)
      ensures var (v, out) := ServerStep(old(Abs()), Closed(ok, sent, reported));
              Abs() == v && outbox == old(outbox) + out
    {
      if ok {
        ReportDone(sent, reported);
      } else {
        ReportError(reported);
      }
    }

    method ReportDone(sent: bool, reported: bool)
      requires Valid() && !phase.Waiting? && !active
      modifies this
      ensures Valid() && phase.Waiting? && finished == old(finished) && EndsWith(old(outbox), outbox)
      ensures sent ==> outbox == old(outbox) + [Reply(Done(CallbacksIn(old(outbox))))]
      ensures !sent ==> ErrorTold(old(outbox), outbox, reported)
      ensures var (v, out) := PublishDone(old(Abs()), sent, reported); Abs() == v && outbox == old(outbox) + out
    {
      if !sent {
        ReportError(reported);
        return;
      }
      PublishTerminal(Done(published));
    }

    method PublishTerminal(r: Response)
      requires Valid() && !phase.Waiting? && !active && !r.Value? && r.mark == published
      modifies this`outbox, this`terminals, this`phase
      ensures Valid() && outbox == old(outbox) + [Reply(r)] && EndsWith(old(outbox), outbox)
      ensures Abs() == old(Abs()).(phase := Waiting, terminals := old(terminals) + 1)
    {
      PublishNext(outbox, Reply(r));
      outbox, terminals, phase := outbox + [Reply(r)], 1, Waiting;
    }

    /** The handler's catch block: the session is over, and one terminal message at most says so. */
    method ReportError(reported: bool)
      requires Valid() && !phase.Waiting?
      modifies this
      ensures Valid() && phase.Waiting? && !active
      ensures finished == old(finished) + One(old(active)) && ErrorTold(old(outbox), outbox, reported)
      ensures EndsWith(old(outbox), outbox)
      ensures var (v, out) := PublishError(old(Abs()), reported); Abs() == v && outbox == old(outbox) + out
    {
      FinishOnce();
      if reported {
        PublishTerminal(Failure(published));
      } else {
        phase := Waiting;
      }
    }

    /**
     * The session's cleanup function, run when the client it belongs to is torn
     * down: no natural end is told after it.
     */
    method CleanUp()
      requires Valid() && open
      modifies this`active, this`cleaned
      ensures Valid() && !active && finished == old(finished) && outbox == old(outbox)
      ensures Abs() == ServerStep(old(Abs()), ServerEvent.Cleanup).0
    {
      active, cleaned := false, true;
    }
  }
}
