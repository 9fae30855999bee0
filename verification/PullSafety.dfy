/** What every run of a pull session keeps. */
module PullSafety {
  import opened Wire
  import opened PullProtocol

  // ---------------------------------------------------------------- the server alone

  predicate ServerInv(s: Server) {
    && (!s.open ==> s == NEW_SERVER)
    && (s.active ==> s.open && s.terminals == 0 && s.finished == 0 && !s.cleaned)
    && (s.phase.Closing? ==> !s.active)
    && (!s.phase.Waiting? ==> s.terminals == 0)
    && s.terminals <= 1 && s.finished <= 1
    && s.values + (if s.phase.Advancing? then 1 else 0) <= s.advances
    && s.lastMark <= s.published
    && (s.advances == s.values ==> s.published == s.lastMark)
    && (s.advances == 0 ==> s.published == 0)
  }

  lemma ServerStepKeepsInv(s: Server, e: ServerEvent)
    requires ServerInv(s) && ServerEnabled(s, e)
    ensures ServerInv(ServerStep(s, e).0)
  {
  }

  lemma ServerReceiveKeepsInv(s: Server, m: Request, status: bool)
    requires ServerInv(s) && (s.active ==> s.phase.Waiting?)
    ensures ServerInv(ServerReceive(s, m, status).0)
  {
  }

  // ---------------------------------------------------------------- the client alone

  predicate Holding(pc: Pc) {
    pc.Prefetching? || pc.Flushing? || pc.Draining?
  }

  predicate ClientInv(mode: Mode, c: Client) {
    && (!c.flags.started ==> c == NEW_CLIENT || c == MarkReturned(NEW_CLIENT))
    && (c.pc.Starting? ==> Unsent(c) && !c.flags.subscribed && (c.log.over || c.flags.cleanedUp ==> c.flags.returned))
    && FlagsInv(c)
    && PcInv(mode, c)
    && c.chain.completed <= c.chain.begun <= |c.chain.appended| && c.chain.begun <= c.chain.completed + 1
    && c.log.sent == |c.log.delivered| + Out(c) + c.log.owed
  }

  /** Before the first request. */
  predicate Unsent(c: Client) {
    && c.flags.started && c.queue == [] && c.chain == Chain([], 0, 0)
    && c.log.sent == 0 && c.log.delivered == [] && c.log.owed == 0
  }

  predicate FlagsInv(c: Client) {
    && (c.flags.returned && c.flags.started ==> c.flags.cleanedUp)
    && (c.flags.returned ==> c.log.over) && (c.flags.statusHandler ==> c.flags.subscribed)
    && (c.flags.cleanedUp || c.log.heard || c.flags.error ==> c.flags.ended)
    && (c.log.over ==> c.flags.ended || c.flags.returned)
    && (c.log.owed > 0 ==> c.log.over)
    && c.log.cancels <= One(c.flags.cleanedUp)
    && (c.flags.cleanedUp && c.flags.subscribed ==> c.flags.returned && c.log.sent == 0)
  }

  predicate PcInv(mode: Mode, c: Client) {
    && (c.pc.Parked? ==> !c.flags.ended && !c.flags.returned && c.queue == [])
    && (Holding(c.pc) ==> mode.Callbacks? && !c.pc.r.Failure?)
    && (c.pc.Prefetching? ==> mode.prefetch && c.pc.r.Value? && !c.flags.prefetched)
    && (c.flags.prefetched ==>
          Prefetches(mode) && (c.pc.Idle? || ((c.pc.Flushing? || c.pc.Draining?) && c.pc.r.Value?)))
    && (c.pc.Prefetching? || c.flags.prefetched ==> c.log.owed == 0)
    && (c.pc.Draining? ==> c.pc.r.mark <= c.pc.until <= |c.chain.appended|)
  }

  lemma ClientStepKeepsInv(mode: Mode, c: Client, e: ClientEvent)
    requires ClientInv(mode, c) && ClientEnabled(c, e)
    requires e.Flushed? ==> c.pc.r.mark <= |c.chain.appended|
    ensures ClientInv(mode, ClientStep(mode, c, e).0)
  {
    match e
    case CallNext(sent, cancelled) => BeginNextKeepsInv(mode, c, sent, cancelled);
    case SetupDone(sent, cancelled) => FinishSetupKeepsInv(mode, c, sent, cancelled);
    case SetupFails(cancelled) => EndKeepsInv(mode, c, cancelled);
    case Decide => AwaitKeepsInv(mode, c);
    case Continue(sent, cancelled) => TakeKeepsInv(mode, c, sent, cancelled);
    case PrefetchSent =>
    case Flushed =>
    case Drained(cancelled) => DrainedKeepsInv(mode, c, cancelled);
    case CallbackBegins =>
    case CallbackEnds =>
    case Return(cancelled) => ReturnKeepsInv(mode, c, cancelled);
    case SettleOnDisconnect => SettleKeepsInv(mode, c);
  }

  lemma EndKeepsInv(mode: Mode, c: Client, cancelled: bool)
    requires ClientInv(mode, c) && c.flags.started && !c.flags.prefetched && !c.pc.Prefetching?
    ensures ClientInv(mode, End(c, cancelled).0)
  {
  }

  lemma AwaitKeepsInv(mode: Mode, c: Client)
    requires ClientInv(mode, c) && c.pc.Sent?
    ensures ClientInv(mode, AwaitResponse(c))
  {
  }

  lemma BeginNextKeepsInv(mode: Mode, c: Client, sent: bool, cancelled: bool)
    requires ClientInv(mode, c) && c.pc.Idle?
    ensures ClientInv(mode, BeginNext(c, sent, cancelled).0)
  {
    if c.flags.started && !c.flags.returned {
      if c.flags.prefetched {
        var ready := SetPrefetched(c, false).(pc := Sent);
        AwaitKeepsInv(mode, ready);
        assert AwaitResponse(ready) == AwaitResponse(SetPrefetched(c, false));
      } else if !sent {
        EndKeepsInv(mode, c, cancelled);
      }
    }
  }

  lemma FinishSetupKeepsInv(mode: Mode, c: Client, sent: bool, cancelled: bool)
    requires ClientInv(mode, c) && c.pc.Starting?
    ensures ClientInv(mode, FinishSetup(c, sent, cancelled).0)
  {
  }

  lemma TakeKeepsInv(mode: Mode, c: Client, sent: bool, cancelled: bool)
    requires ClientInv(mode, c) && c.pc.Resolved?
    ensures ClientInv(mode, TakeResponse(mode, c, c.pc.r, sent, cancelled).0)
  {
    if c.flags.returned || c.pc.r.Failure? {
      EndKeepsInv(mode, c, cancelled);
    } else if c.pc.r.Value? {
      TakeValueKeepsInv(mode, c, sent);
    } else if mode.Plain? {
      EndKeepsInv(mode, c, cancelled);
    }
  }

  lemma TakeValueKeepsInv(mode: Mode, c: Client, sent: bool)
    requires ClientInv(mode, c) && c.pc.Resolved? && c.pc.r.Value? && !c.flags.returned
    ensures ClientInv(mode, TakeValue(mode, c, c.pc.r, sent).0)
  {
  }

  lemma DrainedKeepsInv(mode: Mode, c: Client, cancelled: bool)
    requires ClientInv(mode, c) && c.pc.Draining?
    ensures ClientInv(mode, if c.pc.r.Value? then HandOut(c, c.pc.r.k) else End(c, cancelled).0)
  {
    if !c.pc.r.Value? {
      EndKeepsInv(mode, c, cancelled);
    }
  }

  lemma ReturnKeepsInv(mode: Mode, c: Client, cancelled: bool)
    requires ClientInv(mode, c)
    ensures ClientInv(mode, ReturnEarly(c, cancelled).0)
  {
    if !c.flags.returned {
      if c.flags.started {
        CleanupKeepsInv(mode, c, MarkReturned(c), cancelled);
      }
    }
  }

  lemma CleanupKeepsInv(mode: Mode, c: Client, r: Client, cancelled: bool)
    requires ClientInv(mode, c) && c.flags.started && !c.flags.returned && r == MarkReturned(c)
    ensures ClientInv(mode, CleanupOnce(r, cancelled).0)
  {
    var r' := CleanupOnce(r, cancelled).0;
    if r.flags.cleanedUp {
      assert r' == r;
    } else if r.flags.ended {
      assert r' == Unsubscribe(r);
    } else if cancelled {
      assert r' == CancelSession(Unsubscribe(r));
    } else {
      assert r' == MarkEnded(Unsubscribe(r));
    }
  }

  lemma SettleKeepsInv(mode: Mode, c: Client)
    requires ClientInv(mode, c) && c.flags.started
    ensures ClientInv(mode, SettleParked(c))
  {
  }

  lemma ClientReceiveKeepsInv(mode: Mode, c: Client, m: Down)
    requires ClientInv(mode, c)
    requires c.log.sent == 0 ==> Blank(m)
    ensures ClientInv(mode, ClientReceive(c, m))
  {
    if m.Reply? && c.flags.subscribed {
      HearKeepsInv(mode, c, m.r);
    }
  }

  lemma HearKeepsInv(mode: Mode, c: Client, r: Response)
    requires ClientInv(mode, c) && c.flags.subscribed && (r.Value? ==> c.log.sent != 0)
    ensures ClientInv(mode, Accept(Hear(c, r), r))
  {
  }

  /** What may be on its way to a client that has sent no request. */
  predicate Blank(m: Down) {
    m.NoResponders? || (m.Reply? && !m.r.Value? && m.r.mark == 0)
  }

  // ---------------------------------------------------------------- the responses in transit

  /** A response the client holds: its mark is met, and the last value carries the last mark. */
  predicate Fits(r: Response, appended: nat, v: Server) {
    && r.mark <= appended
    && (r.Value? ==> r.k < v.values && (r.k + 1 == v.values ==> r.mark == v.lastMark))
  }

  /** Held responses, their values counting up from `n`. */
  predicate InStep(rs: seq<Response>, n: nat, appended: nat, v: Server) {
    rs != [] ==>
      && Fits(rs[0], appended, v)
      && (rs[0].Value? ==> rs[0].k == n)
      && InStep(rs[1..], n + One(rs[0].Value?), appended, v)
  }

  function Count(rs: seq<Response>): nat {
    if rs == [] then 0 else One(rs[0].Value?) + Count(rs[1..])
  }

  lemma {:induction false} InStepAppend(rs: seq<Response>, n: nat, r: Response, appended: nat, v: Server)
    requires InStep(rs, n, appended, v) && Fits(r, appended, v) && (r.Value? ==> r.k == n + Count(rs))
    ensures InStep(rs + [r], n, appended, v) && Count(rs + [r]) == Count(rs) + One(r.Value?)
  {
    if rs == [] {
      assert [r][1..] == [] && rs + [r] == [r];
    } else {
      InStepAppend(rs[1..], n + One(rs[0].Value?), r, appended, v);
      assert (rs + [r])[1..] == rs[1..] + [r];
    }
  }

  /** Later callbacks and values leave what is held in step. */
  lemma {:induction false} InStepGrows(rs: seq<Response>, n: nat, appended: nat, v: Server, appended': nat, v': Server)
    requires InStep(rs, n, appended, v) && appended <= appended'
    requires v'.values > v.values || (v'.values == v.values && v'.lastMark == v.lastMark)
    ensures InStep(rs, n, appended', v')
  {
    if rs != [] {
      InStepGrows(rs[1..], n + One(rs[0].Value?), appended, v, appended', v');
    }
  }

  /** The response next() is dealing with; after return() only one already accepted. */
  function Head(c: Client): Option<Response> {
    if Holding(c.pc) || (c.pc.Resolved? && !c.flags.returned) then Some(c.pc.r) else None
  }

  function Tail(c: Client): seq<Response> {
    if c.flags.returned then [] else c.queue
  }

  /** Values handed out or in hand. */
  function Reached(c: Client): nat {
    |c.log.delivered| + One(Head(c).Some? && Head(c).value.Value?)
  }

  predicate StreamInv(c: Client, v: Server) {
    && |c.log.delivered| <= v.values && |c.chain.appended| <= v.published
    && (forall i :: 0 <= i < |c.log.delivered| ==> c.log.delivered[i] == i)
    && (forall i :: 0 <= i < |c.chain.appended| ==> c.chain.appended[i] == i)
    && (Head(c).Some? ==> Fits(Head(c).value, |c.chain.appended|, v)
                          && (Head(c).value.Value? ==> Head(c).value.k == |c.log.delivered|))
    && InStep(Tail(c), Reached(c), |c.chain.appended|, v)
  }

  /** The callbacks published before a held response are all in the chain. */
  lemma BatchIsQueued(c: Client, v: Server)
    requires StreamInv(c, v) && Holding(c.pc)
    ensures c.pc.r.mark <= |c.chain.appended|
    ensures forall i :: 0 <= i < c.pc.r.mark ==> i in c.chain.appended
  {
    assert Head(c) == Some(c.pc.r);
    forall i | 0 <= i < c.pc.r.mark
      ensures i in c.chain.appended
    {
      assert c.chain.appended[i] == i;
    }
  }

  /** Values that have reached the client. */
  function Total(c: Client): nat {
    Reached(c) + Count(Tail(c))
  }

  predicate Live(c: Client) {
    c.flags.subscribed && !c.flags.cleanedUp
  }

  /** What the client holds stays in order and, while it is live, none of it is lost. */
  predicate Keeps(c: Client, c': Client, v: Server) {
    && StreamInv(c', v)
    && (Live(c') ==> Total(c') == Total(c) && c'.chain.appended == c.chain.appended)
  }

  lemma StreamStep(mode: Mode, c: Client, e: ClientEvent, v: Server)
    requires ClientInv(mode, c) && ClientEnabled(c, e) && StreamInv(c, v)
    ensures var c' := ClientStep(mode, c, e).0; Keeps(c, c', v) && (Live(c') ==> e.SetupDone? || Live(c))
  {
    match e
    case CallNext(sent, cancelled) => BeginNextKeeps(mode, c, v, sent, cancelled);
    case SetupDone(sent, cancelled) => FinishSetupKeeps(mode, c, v, sent, cancelled);
    case SetupFails(cancelled) => EndKeeps(c, v, cancelled);
    case Decide => AwaitKeeps(mode, c, v);
    case Continue(sent, cancelled) => TakeKeeps(mode, c, v, sent, cancelled);
    case PrefetchSent => QuietKeeps(mode, c, e, v);
    case Flushed => QuietKeeps(mode, c, e, v);
    case Drained(cancelled) => DrainedKeeps(mode, c, v, cancelled);
    case CallbackBegins => QuietKeeps(mode, c, e, v);
    case CallbackEnds => QuietKeeps(mode, c, e, v);
    case Return(cancelled) => ReturnKeeps(mode, c, v, cancelled);
    case SettleOnDisconnect => SettleKeeps(mode, c, v);
  }

  /** Steps that only move the call or the callback chain along. */
  lemma QuietKeeps(mode: Mode, c: Client, e: ClientEvent, v: Server)
    requires ClientEnabled(c, e) && StreamInv(c, v)
    requires e.PrefetchSent? || e.Flushed? || e.CallbackBegins? || e.CallbackEnds?
    ensures var c' := ClientStep(mode, c, e).0; Keeps(c, c', v) && (Live(c') ==> Live(c))
  {
  }

  lemma EndKeeps(c: Client, v: Server, cancelled: bool)
    requires StreamInv(c, v) && Reached(c) == |c.log.delivered|
    ensures StreamInv(End(c, cancelled).0, v) && !Live(End(c, cancelled).0)
  {
  }

  lemma BeginNextKeeps(mode: Mode, c: Client, v: Server, sent: bool, cancelled: bool)
    requires ClientInv(mode, c) && c.pc.Idle? && StreamInv(c, v)
    ensures var c' := BeginNext(c, sent, cancelled).0; Keeps(c, c', v) && (Live(c') ==> Live(c))
  {
    if c.flags.started && !c.flags.returned {
      if c.flags.prefetched {
        AwaitKeeps(mode, SetPrefetched(c, false).(pc := Sent), v);
      } else {
        RequestKeeps(c, v, sent, cancelled);
      }
    }
  }

  lemma RequestKeeps(c: Client, v: Server, sent: bool, cancelled: bool)
    requires StreamInv(c, v) && c.pc.Idle?
    ensures var c' := RequestNext(c, sent, cancelled).0; Keeps(c, c', v) && (Live(c') ==> Live(c))
  {
    if !sent {
      EndKeeps(c, v, cancelled);
    }
  }

  lemma FinishSetupKeeps(mode: Mode, c: Client, v: Server, sent: bool, cancelled: bool)
    requires ClientInv(mode, c) && c.pc.Starting? && StreamInv(c, v)
    ensures Keeps(c, FinishSetup(c, sent, cancelled).0, v)
  {
  }

  lemma AwaitKeeps(mode: Mode, c: Client, v: Server)
    requires ClientInv(mode, c) && c.pc.Sent? && StreamInv(c, v)
    ensures Keeps(c, AwaitResponse(c), v)
  {
  }

  lemma TakeKeeps(mode: Mode, c: Client, v: Server, sent: bool, cancelled: bool)
    requires ClientInv(mode, c) && c.pc.Resolved? && StreamInv(c, v)
    ensures var c' := TakeResponse(mode, c, c.pc.r, sent, cancelled).0; Keeps(c, c', v) && (Live(c') ==> Live(c))
  {
    if c.flags.returned || c.pc.r.Failure? {
      EndKeeps(c, v, cancelled);
    } else if c.pc.r.Value? {
      TakeValueKeeps(mode, c, v, sent);
    } else if mode.Plain? {
      EndKeeps(c, v, cancelled);
    }
  }

  lemma TakeValueKeeps(mode: Mode, c: Client, v: Server, sent: bool)
    requires c.pc.Resolved? && c.pc.r.Value? && !c.flags.returned && StreamInv(c, v)
    ensures var c' := TakeValue(mode, c, c.pc.r, sent).0; Keeps(c, c', v) && (Live(c') ==> Live(c))
  {
  }

  lemma DrainedKeeps(mode: Mode, c: Client, v: Server, cancelled: bool)
    requires ClientInv(mode, c) && c.pc.Draining? && StreamInv(c, v)
    ensures var c' := if c.pc.r.Value? then HandOut(c, c.pc.r.k) else End(c, cancelled).0;
            Keeps(c, c', v) && (Live(c') ==> Live(c))
  {
    if !c.pc.r.Value? {
      EndKeeps(c, v, cancelled);
    }
  }

  lemma ReturnKeeps(mode: Mode, c: Client, v: Server, cancelled: bool)
    requires ClientInv(mode, c) && StreamInv(c, v)
    ensures var c' := ReturnEarly(c, cancelled).0; Keeps(c, c', v) && (Live(c') ==> Live(c))
  {
  }

  lemma SettleKeeps(mode: Mode, c: Client, v: Server)
    requires ClientInv(mode, c) && StreamInv(c, v)
    ensures Keeps(c, SettleParked(c), v)
  {
  }

  /** The server moves on: what the client holds still fits. */
  lemma StreamGrows(c: Client, v: Server, v': Server)
    requires StreamInv(c, v) && v'.published >= v.published
    requires v'.values > v.values || (v'.values == v.values && v'.lastMark == v.lastMark)
    ensures StreamInv(c, v')
  {
    InStepGrows(Tail(c), Reached(c), |c.chain.appended|, v, |c.chain.appended|, v');
  }

  // ---------------------------------------------------------------- the messages on the connection

  /** Messages carry on where the client is: next callback `a`, next value `n`, up to what the server published. */
  predicate Ordered(down: seq<Down>, n: nat, a: nat, v: Server) {
    if down == [] then n == v.values && a == v.published
    else
      match down[0]
      case Callback(m) => m == a && Ordered(down[1..], n, a + 1, v)
      case Reply(r) =>
        && Fits(r, a, v) && (r.Value? ==> r.k == n && r.mark == a)
        && Ordered(down[1..], n + One(r.Value?), a, v)
      case NoResponders => Ordered(down[1..], n, a, v)
  }

  lemma {:induction false} OrderedBounds(down: seq<Down>, n: nat, a: nat, v: Server)
    requires Ordered(down, n, a, v)
    ensures n <= v.values && a <= v.published
  {
    if down != [] {
      match down[0]
      case Callback(_) => OrderedBounds(down[1..], n, a + 1, v);
      case Reply(r) => OrderedBounds(down[1..], n + One(r.Value?), a, v);
      case NoResponders => OrderedBounds(down[1..], n, a, v);
    }
  }

  /** The server published `m`. */
  predicate Publishes(v: Server, m: Down, v': Server) {
    match m
    case Callback(n) => n == v.published && v'.published == n + 1 && v'.values == v.values && v'.lastMark == v.lastMark
    case Reply(r) =>
      && r.mark == v.published == v'.published
      && if r.Value? then r.k == v.values && v'.values == r.k + 1 && v'.lastMark == r.mark else SameOutput(v, v')
    case NoResponders => SameOutput(v, v')
  }

  predicate SameOutput(v: Server, v': Server) {
    v'.published == v.published && v'.values == v.values && v'.lastMark == v.lastMark
  }

  lemma {:induction false} OrderedAppend(down: seq<Down>, n: nat, a: nat, v: Server, m: Down, v': Server)
    requires Ordered(down, n, a, v) && Publishes(v, m, v')
    ensures Ordered(down + [m], n, a, v')
  {
    if down == [] {
      assert down + [m] == [m] && [m][1..] == [];
    } else {
      assert (down + [m])[0] == down[0] && (down + [m])[1..] == down[1..] + [m];
      match down[0]
      case Callback(_) => OrderedAppend(down[1..], n, a + 1, v, m, v');
      case Reply(r) => OrderedAppend(down[1..], n + One(r.Value?), a, v, m, v');
      case NoResponders => OrderedAppend(down[1..], n, a, v, m, v');
    }
  }

  lemma {:induction false} OrderedSame(down: seq<Down>, n: nat, a: nat, v: Server, v': Server)
    requires Ordered(down, n, a, v) && SameOutput(v, v')
    ensures Ordered(down, n, a, v')
  {
    if down != [] {
      match down[0]
      case Callback(_) => OrderedSame(down[1..], n, a + 1, v, v');
      case Reply(r) => OrderedSame(down[1..], n + One(r.Value?), a, v, v');
      case NoResponders => OrderedSame(down[1..], n, a, v, v');
    }
  }

  /** Before the first request only blank messages can be on their way. */
  lemma {:induction false} BlankOrdered(down: seq<Down>, v: Server)
    requires v.values == 0 && v.published == 0 && forall m :: m in down ==> Blank(m)
    ensures Ordered(down, 0, 0, v)
  {
    if down != [] {
      assert Blank(down[0]);
      BlankOrdered(down[1..], v);
    }
  }

  lemma {:induction false} NextsAppend(up: seq<Request>, m: Request)
    ensures Nexts(up + [m]) == Nexts(up) + One(m.Next?)
  {
    if up == [] {
      assert up + [m] == [m] && [m][1..] == [];
    } else {
      assert (up + [m])[1..] == up[1..] + [m];
      NextsAppend(up[1..], m);
    }
  }

  // ---------------------------------------------------------------- the session

  predicate Inv(mode: Mode, s: System) {
    && ServerInv(s.server) && ClientInv(mode, s.client) && StreamInv(s.client, s.server)
    && UpInv(s.client.log, s.server.advances, s.up, s.dropped)
    && (s.server.open ==> s.client.flags.started)
    && Undisturbed(s.client.log, s.server)
    && (!s.connected ==> s.up == [] && s.down == [])
    && DownInv(s.client, s.server, s.down, s.connected)
  }

  /** A session nobody has sent anything to, nor torn down, is active and at rest. */
  predicate Undisturbed(log: Log, v: Server) {
    log.sent == 0 && log.cancels == 0 && v.open && !v.cleaned ==> v.active && v.phase.Waiting?
  }

  /** Every request sent has advanced the generator, been dropped, or is on its way. */
  predicate UpInv(log: Log, advances: nat, up: seq<Request>, dropped: nat) {
    advances + Nexts(up) + dropped == log.sent && |up| <= log.sent + log.cancels
  }

  predicate DownInv(c: Client, v: Server, down: seq<Down>, connected: bool) {
    && (c.log.sent == 0 ==> forall m :: m in down ==> Blank(m))
    && (Live(c) && connected ==> Ordered(down, Total(c), |c.chain.appended|, v))
  }

  /**
   * What a client's step may change, unless it hands out a value or settles a
   * teardown: at most one request goes out, a cancel only from a session
   * neither ended nor cleaned up; cleaning up has heard the end or tells it;
   * flags are never taken back.
   */
  predicate Moves(c: Client, c': Client, out: seq<Request>, cancelled: bool) {
    && Sends(c, c', out) && Ends(c, c', out, cancelled)
    && c'.log.delivered == c.log.delivered
  }

  predicate Sends(c: Client, c': Client, out: seq<Request>) {
    && |out| <= 1
    && c'.log.sent == c.log.sent + One(out == [Next])
    && c'.log.cancels == c.log.cancels + One(out == [Cancel])
    && (out == [Cancel] ==> !c.flags.ended && !c.flags.cleanedUp)
  }

  predicate Ends(c: Client, c': Client, out: seq<Request>, cancelled: bool) {
    && (c.flags.started ==> c'.flags.started) && (c.flags.returned ==> c'.flags.returned)
    && (c.flags.cleanedUp ==> c'.flags.cleanedUp)
    && (out == [Cancel] ==> cancelled)
    && (c'.flags.cleanedUp && !c.flags.cleanedUp ==> c.flags.ended || !cancelled || out == [Cancel])
    && (c'.flags.ended ==> c.flags.ended || c'.flags.cleanedUp)
    && c'.log.heard == c.log.heard
  }

  /** The event publishes the cancel of a clean-up, if there is one. */
  predicate Cancels(e: ClientEvent) {
    match e
    case CallNext(_, cancelled) => cancelled
    case SetupDone(_, cancelled) => cancelled
    case SetupFails(cancelled) => cancelled
    case Continue(_, cancelled) => cancelled
    case Drained(cancelled) => cancelled
    case Return(cancelled) => cancelled
    case _ => false
  }

  /** The step gives the consumer a value. */
  predicate HandsOut(mode: Mode, c: Client, e: ClientEvent) {
    || (e.Drained? && c.pc.Draining? && c.pc.r.Value?)
    || (e.Continue? && mode.Plain? && c.pc.Resolved? && c.pc.r.Value? && !c.flags.returned)
  }

  lemma ClientStepMoves(mode: Mode, c: Client, e: ClientEvent)
    requires ClientEnabled(c, e)
    ensures var (c', out) := ClientStep(mode, c, e);
            && (out != [] ==> ClientSends(e))
            && if HandsOut(mode, c, e) then c' == HandOut(c, c.pc.r.k) && out == []
               else if e.SettleOnDisconnect? then c' == SettleParked(c) && out == [] && Stays(c, c')
               else Moves(c, c', out, Cancels(e))
  {
    match e
    case CallNext(sent, cancelled) => BeginNextMoves(c, sent, cancelled);
    case SetupDone(sent, cancelled) => FinishSetupMoves(c, sent, cancelled);
    case SetupFails(cancelled) => EndMoves(c, cancelled);
    case Decide => AwaitMoves(c);
    case Continue(sent, cancelled) => TakeMoves(mode, c, sent, cancelled);
    case Drained(cancelled) => DrainedMoves(mode, c, cancelled);
    case Return(cancelled) => ReturnMoves(c, cancelled);
    case SettleOnDisconnect => SettleMoves(c);
    case _ => QuietMoves(mode, c, e);
  }

  lemma QuietMoves(mode: Mode, c: Client, e: ClientEvent)
    requires ClientEnabled(c, e) && (e.PrefetchSent? || e.Flushed? || e.CallbackBegins? || e.CallbackEnds?)
    ensures ClientStep(mode, c, e).1 == [] && Moves(c, ClientStep(mode, c, e).0, [], false)
  {
  }

  lemma DrainedMoves(mode: Mode, c: Client, cancelled: bool)
    requires ClientEnabled(c, Drained(cancelled))
    ensures var (c', out) := ClientStep(mode, c, Drained(cancelled));
            && (out != [] ==> cancelled)
            && if c.pc.r.Value? then c' == HandOut(c, c.pc.r.k) && out == [] else Moves(c, c', out, cancelled)
  {
    if !c.pc.r.Value? {
      EndMoves(c, cancelled);
    }
  }

  lemma CleanupMoves(c: Client, cancelled: bool)
    ensures var (c', out) := CleanupOnce(c, cancelled); Moves(c, c', out, cancelled) && (out != [] ==> out == [Cancel])
  {
  }

  lemma EndMoves(c: Client, cancelled: bool)
    ensures var (c', out) := End(c, cancelled); Moves(c, c', out, cancelled) && (out != [] ==> out == [Cancel])
  {
    CleanupMoves(c, cancelled);
  }

  lemma RequestMoves(c: Client, sent: bool, cancelled: bool)
    ensures var (c', out) := RequestNext(c, sent, cancelled);
            Moves(c, c', out, cancelled) && (out != [] ==> sent || cancelled)
  {
    if !sent {
      EndMoves(c, cancelled);
    }
  }

  lemma BeginNextMoves(c: Client, sent: bool, cancelled: bool)
    ensures var (c', out) := BeginNext(c, sent, cancelled);
            Moves(c, c', out, cancelled) && (out != [] ==> sent || cancelled)
  {
    if c.flags.started && !c.flags.returned {
      if c.flags.prefetched {
        AwaitMoves(SetPrefetched(c, false));
      } else {
        RequestMoves(c, sent, cancelled);
      }
    }
  }

  lemma FinishSetupMoves(c: Client, sent: bool, cancelled: bool)
    ensures var (c', out) := FinishSetup(c, sent, cancelled);
            Moves(c, c', out, cancelled) && (out != [] ==> sent || cancelled)
  {
    if c.flags.returned {
      EndMoves(Subscribe(c), cancelled);
    } else {
      RequestMoves(Subscribe(c), sent, cancelled);
    }
  }

  lemma AwaitMoves(c: Client)
    ensures Moves(c, AwaitResponse(c), [], false)
  {
    if c.flags.returned || c.queue == [] {
      assert AwaitResponse(c).log.(over := c.log.over, owed := c.log.owed) == c.log;
    }
  }

  lemma TakeMoves(mode: Mode, c: Client, sent: bool, cancelled: bool)
    requires c.pc.Resolved?
    ensures var (c', out) := TakeResponse(mode, c, c.pc.r, sent, cancelled);
            && (out != [] ==> sent || cancelled)
            && if mode.Plain? && c.pc.r.Value? && !c.flags.returned then c' == HandOut(c, c.pc.r.k) && out == []
               else Moves(c, c', out, cancelled)
  {
    if c.flags.returned || !c.pc.r.Value? {
      EndMoves(c, cancelled);
    } else if mode.Callbacks? {
      PrefetchMoves(c, c.pc.r, sent, cancelled);
    }
  }

  lemma PrefetchMoves(c: Client, r: Response, sent: bool, cancelled: bool)
    ensures var (c', out) := Prefetch(c, r, sent); Moves(c, c', out, cancelled) && (out != [] ==> sent)
    ensures Moves(c, Flush(c, r), [], cancelled)
  {
  }

  lemma ReturnMoves(c: Client, cancelled: bool)
    ensures var (c', out) := ReturnEarly(c, cancelled); Moves(c, c', out, cancelled) && (out != [] ==> cancelled)
  {
    if !c.flags.returned {
      var r := MarkReturned(c);
      MarkSame(c, r);
      if c.flags.started {
        CleanupMoves(r, cancelled);
      }
    }
  }

  lemma MarkSame(c: Client, r: Client)
    requires r == MarkReturned(c)
    ensures r.log == c.log.(over := true) && r.flags == c.flags.(returned := true)
  {
  }

  lemma SettleMoves(c: Client)
    ensures Stays(c, SettleParked(c))
  {
  }

  predicate Stays(c: Client, c': Client) {
    && c'.log == c.log && c'.flags.started == c.flags.started
    && c'.flags.returned == c.flags.returned && c'.flags.cleanedUp == c.flags.cleanedUp
    && (c'.pc.Starting? <==> c.pc.Starting?)
  }

  lemma ServerPublishesOnce(v: Server, e: ServerEvent)
    requires ServerInv(v) && ServerEnabled(v, e)
    ensures var (v', out) := ServerStep(v, e);
            && |out| <= 1 && (out != [] ==> ServerSends(e))
            && (out == [] ==> SameOutput(v, v'))
            && (out != [] ==> Publishes(v, out[0], v'))
            && v'.advances == v.advances
            && v'.terminals == v.terminals + One(out != [] && out[0].Reply? && !out[0].r.Value?)
            && (v.advances == 0 && out != [] ==> Blank(out[0]))
  {
  }

  lemma ClientEventKeepsInv(mode: Mode, s: System, e: ClientEvent)
    requires Inv(mode, s) && Enabled(s, AtClient(e))
    ensures Inv(mode, Step(mode, s, AtClient(e)))
  {
    var c' := ClientStep(mode, s.client, e).0;
    ClientStepMoves(mode, s.client, e);
    ClientStepKeepsInv(mode, s.client, e);
    StreamStep(mode, s.client, e, s.server);
    ClientMoves(mode, s, c', ClientStep(mode, s.client, e).1);
  }

  lemma UpGrows(c: Client, c': Client, advances: nat, up: seq<Request>, out: seq<Request>, dropped: nat)
    requires UpInv(c.log, advances, up, dropped) && Sends(c, c', out)
    ensures UpInv(c'.log, advances, up + out, dropped) && (out == [] ==> up + out == up)
  {
    if out == [] {
      assert up + out == up;
    } else {
      assert out == [out[0]];
      NextsAppend(up, out[0]);
    }
  }

  lemma DownStays(mode: Mode, c: Client, c': Client, v: Server, down: seq<Down>, connected: bool)
    requires ClientInv(mode, c) && ClientInv(mode, c') && StreamInv(c, v) && Keeps(c, c', v)
    requires DownInv(c, v, down, connected) && c.log.sent <= c'.log.sent && ServerInv(v)
    requires Live(c') ==> Live(c) || (c.pc.Starting? && v.advances == 0)
    ensures DownInv(c', v, down, connected)
  {
    if c.pc.Starting? && v.advances == 0 {
      BlankOrdered(down, v);
    }
  }

  /** A client move that keeps its own invariant and its stream keeps the session's. */
  lemma ClientMoves(mode: Mode, s: System, c': Client, out: seq<Request>)
    requires Inv(mode, s) && ClientInv(mode, c') && Keeps(s.client, c', s.server)
    requires Sends(s.client, c', out) && (out != [] ==> s.connected)
    requires Live(c') ==> Live(s.client) || s.client.pc.Starting?
    requires s.client.flags.started ==> c'.flags.started
    ensures Inv(mode, s.(client := c', up := s.up + out))
  {
    UpGrows(s.client, c', s.server.advances, s.up, out, s.dropped);
    DownStays(mode, s.client, c', s.server, s.down, s.connected);
  }

  lemma ServerEventKeepsInv(mode: Mode, s: System, e: ServerEvent)
    requires Inv(mode, s) && Enabled(s, AtServer(e))
    ensures Inv(mode, Step(mode, s, AtServer(e)))
  {
    var v := s.server;
    var (v', out) := ServerStep(v, e);
    ServerPublishesOnce(v, e);
    ServerStepKeepsInv(v, e);
    StreamGrows(s.client, v, v');
    DownGrows(s.client, v, s.down, s.connected, out, v');
  }

  /** The server's output follows what is already on its way. */
  lemma DownGrows(c: Client, v: Server, down: seq<Down>, connected: bool, out: seq<Down>, v': Server)
    requires DownInv(c, v, down, connected) && |out| <= 1
    requires if out == [] then SameOutput(v, v') else Publishes(v, out[0], v')
    requires c.log.sent == 0 && out != [] ==> Blank(out[0])
    ensures DownInv(c, v', down + out, connected)
  {
    if out == [] {
      assert down + out == down;
      if Live(c) && connected {
        OrderedSame(down, Total(c), |c.chain.appended|, v, v');
      }
    } else {
      assert out == [out[0]];
      if Live(c) && connected {
        OrderedAppend(down, Total(c), |c.chain.appended|, v, out[0], v');
      }
    }
  }

  lemma ToServerKeepsInv(mode: Mode, s: System, status: bool)
    requires Inv(mode, s) && Enabled(s, ToServer(status))
    ensures Inv(mode, Step(mode, s, ToServer(status)))
  {
    var (v', out) := ServerReceive(s.server, s.up[0], status);
    ServerReceiveKeepsInv(s.server, s.up[0], status);
    StreamGrows(s.client, s.server, v');
    DownGrows(s.client, s.server, s.down, s.connected, out, v');
  }

  lemma ToClientKeepsInv(mode: Mode, s: System)
    requires Inv(mode, s) && Enabled(s, ToClient)
    ensures Inv(mode, Step(mode, s, ToClient))
  {
    var m := s.down[0];
    assert m in s.down;
    ClientReceiveKeepsInv(mode, s.client, m);
    StreamReceives(mode, s.client, s.server, s.down, m);
    ReceiveSendsNothing(s.client, m);
    ClientHears(mode, s, ClientReceive(s.client, m));
  }

  lemma ReceiveSendsNothing(c: Client, m: Down)
    ensures var c' := ClientReceive(c, m);
            c'.log == c.log.(heard := c'.log.heard) && c'.flags.started == c.flags.started && Out(c') == Out(c)
  {
    match m
    case Callback(_) =>
    case Reply(r) =>
      HearSame(c, r);
      AcceptSame(Hear(c, r), r);
    case NoResponders => AcceptSame(FailByStatus(c), Failure(0));
  }

  lemma AcceptSame(c: Client, r: Response)
    ensures Accept(c, r).log == c.log && Accept(c, r).flags.started == c.flags.started && Out(Accept(c, r)) == Out(c)
  {
    if c.pc.Parked? {
      assert Accept(c, r).pc == Resolved(r);
    } else {
      assert Accept(c, r).pc == c.pc;
    }
  }

  lemma HearSame(c: Client, r: Response)
    ensures var c' := Hear(c, r);
            c'.log == c.log.(heard := c'.log.heard) && c'.flags.started == c.flags.started && Out(c') == Out(c)
  {
    match r
    case Value(_, _) =>
    case Done(_) => assert Hear(c, r).pc == c.pc;
    case Failure(_) => assert Hear(c, r).pc == c.pc;
  }

  lemma ClientHears(mode: Mode, s: System, c': Client)
    requires Inv(mode, s) && s.down != [] && ClientInv(mode, c') && StreamInv(c', s.server)
    requires DownInv(c', s.server, s.down[1..], true)
    requires c'.log.sent == s.client.log.sent && c'.log.cancels == s.client.log.cancels
    requires c'.flags.started == s.client.flags.started
    ensures Inv(mode, s.(client := c', down := s.down[1..]))
  {
  }

  lemma StreamReceives(mode: Mode, c: Client, v: Server, down: seq<Down>, m: Down)
    requires ClientInv(mode, c) && StreamInv(c, v) && down != [] && m == down[0]
    requires DownInv(c, v, down, true)
    ensures var c' := ClientReceive(c, m); StreamInv(c', v) && DownInv(c', v, down[1..], true)
  {
    assert m in down;
    match m
    case Callback(n) => CallbackReceived(mode, c, v, down, n);
    case Reply(r) => ReplyReceived(mode, c, v, down, r);
    case NoResponders => StatusReceived(mode, c, v, down);
  }

  lemma CallbackReceived(mode: Mode, c: Client, v: Server, down: seq<Down>, n: nat)
    requires ClientInv(mode, c) && StreamInv(c, v) && down != [] && Callback(n) == down[0]
    requires DownInv(c, v, down, true)
    ensures var c' := ClientReceive(c, Callback(n)); StreamInv(c', v) && DownInv(c', v, down[1..], true)
  {
    assert Callback(n) in down;
    if c.flags.subscribed {
      OrderedBounds(down[1..], Total(c), |c.chain.appended| + 1, v);
      InStepGrows(Tail(c), Reached(c), |c.chain.appended|, v, |c.chain.appended| + 1, v);
    }
  }

  lemma ReplyReceived(mode: Mode, c: Client, v: Server, down: seq<Down>, r: Response)
    requires ClientInv(mode, c) && StreamInv(c, v) && down != [] && Reply(r) == down[0]
    requires DownInv(c, v, down, true)
    ensures var c' := ClientReceive(c, Reply(r)); StreamInv(c', v) && DownInv(c', v, down[1..], true)
  {
    if Live(c) && !c.flags.returned {
      InStepAppend(c.queue, Reached(c), r, |c.chain.appended|, v);
      HeardInOrder(mode, c, v, r);
    } else if c.flags.subscribed {
      HeardAfterReturn(c, v, r);
    }
  }

  lemma HeardInOrder(mode: Mode, c: Client, v: Server, r: Response)
    requires ClientInv(mode, c) && StreamInv(c, v) && Live(c) && !c.flags.returned && Fits(r, |c.chain.appended|, v)
    requires r.Value? ==> r.k == Total(c)
    ensures var c' := Accept(Hear(c, r), r);
            StreamInv(c', v) && Total(c') == Total(c) + One(r.Value?) && c'.chain == c.chain
  {
    var heard := Hear(c, r);
    assert heard.pc == c.pc && heard.queue == c.queue && heard.chain == c.chain;
    assert heard.flags.returned == c.flags.returned;
    assert StreamInv(heard, v) && Total(heard) == Total(c);
    AcceptInOrder(heard, v, r);
  }

  lemma AcceptInOrder(c: Client, v: Server, r: Response)
    requires StreamInv(c, v) && !c.flags.returned && Fits(r, |c.chain.appended|, v)
    requires (c.pc.Parked? ==> c.queue == []) && (r.Value? ==> r.k == Total(c))
    ensures var c' := Accept(c, r); StreamInv(c', v) && Total(c') == Total(c) + One(r.Value?) && c'.chain == c.chain
  {
    var c' := Accept(c, r);
    if c.pc.Parked? {
      assert c'.pc == Resolved(r) && c'.queue == [] && Head(c').Some? && Head(c).None?;
    } else {
      InStepAppend(c.queue, Reached(c), r, |c.chain.appended|, v);
      assert c'.pc == c.pc && c'.queue == c.queue + [r] && Head(c') == Head(c);
    }
  }

  lemma HeardAfterReturn(c: Client, v: Server, r: Response)
    requires StreamInv(c, v) && c.flags.returned && !c.pc.Parked?
    ensures StreamInv(Accept(Hear(c, r), r), v)
  {
  }

  lemma StatusReceived(mode: Mode, c: Client, v: Server, down: seq<Down>)
    requires ClientInv(mode, c) && StreamInv(c, v) && down != [] && NoResponders == down[0]
    requires DownInv(c, v, down, true)
    ensures var c' := ClientReceive(c, NoResponders); StreamInv(c', v) && DownInv(c', v, down[1..], true)
  {
    if !c.flags.returned {
      InStepAppend(c.queue, Reached(c), Failure(0), |c.chain.appended|, v);
    }
  }
}
