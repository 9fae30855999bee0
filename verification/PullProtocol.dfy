/**
 * The pull-iterator and pull-callback session: the client's iterator
 * (node/src/client.ts), the server's session (node/src/handler.ts) and the
 * connection between them, one step per stretch of code without an await.
 */
module PullProtocol {
  import opened Wire

  datatype Mode = Plain | Callbacks(prefetch: bool)

  predicate Prefetches(mode: Mode) {
    mode.Callbacks? && mode.prefetch
  }

  /**
   * A response; a value is known by its place in the generator's output. `mark`
   * is how many callbacks the server had published before it.
   */
  datatype Response = Value(k: nat, mark: nat) | Done(mark: nat) | Failure(mark: nat)

  datatype Request = Next | Cancel

  /** What reaches the client: a callback, a response, or the broker's no-responders status. */
  datatype Down = Callback(n: nat) | Reply(r: Response) | NoResponders

  // ---------------------------------------------------------------- client

  /** Where the outstanding next() call stands. */
  datatype Pc =
    | Idle
    | Starting
    | Sent
    | Parked
    | Resolved(r: Response)
    | Prefetching(r: Response)
    | Flushing(r: Response)
    | Draining(r: Response, until: nat)

  /** The closure's flags, whether its subscriptions are live and its status handler is registered. */
  datatype Flags = Flags(
    started: bool, returned: bool, cleanedUp: bool, ended: bool, error: bool, prefetched: bool,
    subscribed: bool, statusHandler: bool)

  datatype Client = Client(
    pc: Pc,
    flags: Flags,
    queue: seq<Response>,
    chain: Chain,
    log: Log)

  /** The callback chain: the callbacks appended, by publish number, and how many have begun and completed. */
  datatype Chain = Chain(appended: seq<nat>, begun: nat, completed: nat)

  /**
   * What has happened: `next` and cancel requests sent, values handed out,
   * whether the consumer was told the end, whether a terminal response was
   * heard, and how many requests were out when a call ended without a value.
   */
  datatype Log = Log(sent: nat, cancels: nat, delivered: seq<nat>, over: bool, heard: bool, owed: nat)

  const NEW_CLIENT := Client(
    Idle, Flags(false, false, false, false, false, false, false, false), [], Chain([], 0, 0),
    Log(0, 0, [], false, false, 0))

  /** `sent` and `cancelled` say whether the publish of a request, or of a cancel, succeeds. */
  datatype ClientEvent =
    | CallNext(sent: bool, cancelled: bool)
    | SetupDone(sent: bool, cancelled: bool)
    | SetupFails(cancelled: bool)
    | Decide
    | Continue(sent: bool, cancelled: bool)
    | PrefetchSent
    | Flushed
    | Drained(cancelled: bool)
    | CallbackBegins
    | CallbackEnds
    | Return(cancelled: bool)
    | SettleOnDisconnect

  predicate ClientEnabled(c: Client, e: ClientEvent) {
    match e
    case CallNext(_, _) => c.pc.Idle?
    case SetupDone(_, _) => c.pc.Starting?
    case SetupFails(_) => c.pc.Starting?
    case Decide => c.pc.Sent?
    case Continue(_, _) => c.pc.Resolved?
    case PrefetchSent => c.pc.Prefetching?
    case Flushed => c.pc.Flushing?
    case Drained(_) => c.pc.Draining? && c.chain.completed >= c.pc.until
    case CallbackBegins => c.chain.begun == c.chain.completed < |c.chain.appended|
    case CallbackEnds => c.chain.completed < c.chain.begun
    case Return(_) => true
    case SettleOnDisconnect => c.flags.started
  }

  /** The client after a step, and what it publishes. */
  function ClientStep(mode: Mode, c: Client, e: ClientEvent): (Client, seq<Request>)
    requires ClientEnabled(c, e)
  {
    match e
    case CallNext(sent, cancelled) => BeginNext(c, sent, cancelled)
    case SetupDone(sent, cancelled) => FinishSetup(c, sent, cancelled)
    case SetupFails(cancelled) => End(c, cancelled)
    case Decide => (AwaitResponse(c), [])
    case Continue(sent, cancelled) => TakeResponse(mode, c, c.pc.r, sent, cancelled)
    case PrefetchSent => (Flush(SetPrefetched(c, true), c.pc.r), [])
    case Flushed => (c.(pc := Draining(c.pc.r, |c.chain.appended|)), [])
    case Drained(cancelled) => if c.pc.r.Value? then (HandOut(c, c.pc.r.k), []) else End(c, cancelled)
    case CallbackBegins => (c.(chain := c.chain.(begun := c.chain.begun + 1)), [])
    case CallbackEnds => (c.(chain := c.chain.(completed := c.chain.completed + 1)), [])
    case Return(cancelled) => ReturnEarly(c, cancelled)
    case SettleOnDisconnect => (SettleParked(c), [])
  }

  /** Unsubscribe, and cancel the session if it has not ended; once. */
  function CleanupOnce(c: Client, cancelled: bool): (Client, seq<Request>) {
    if c.flags.cleanedUp then (c, [])
    else if c.flags.ended then (Unsubscribe(c), [])
    else if cancelled then (CancelSession(Unsubscribe(c)), [Cancel])
    else (MarkEnded(Unsubscribe(c)), [])
  }

  function Unsubscribe(c: Client): Client {
    c.(flags := c.flags.(cleanedUp := true, subscribed := false, statusHandler := false))
  }

  function MarkEnded(c: Client): Client {
    c.(flags := c.flags.(ended := true))
  }

  function CancelSession(c: Client): Client {
    MarkEnded(c).(log := c.log.(cancels := c.log.cancels + 1))
  }

  /** The requests out for the calls to come: the one under way, and one sent ahead. */
  function Out(c: Client): nat {
    match c.pc
    case Idle => One(c.flags.prefetched)
    case Starting => 0
    case Prefetching(_) => 2
    case Flushing(_) => 1 + One(c.flags.prefetched)
    case Draining(_, _) => 1 + One(c.flags.prefetched)
    case _ => 1
  }

  /** Clean up and tell the consumer the end; the value of a request still out is owed. */
  function End(c: Client, cancelled: bool): (Client, seq<Request>) {
    var (c, out) := CleanupOnce(c, cancelled);
    (TellEnd(c), out)
  }

  function TellEnd(c: Client): Client {
    c.(pc := Idle, log := c.log.(over := true, owed := c.log.owed + Out(c)))
  }

  function BeginNext(c: Client, sent: bool, cancelled: bool): (Client, seq<Request>) {
    if c.flags.returned then (c, [])
    else if !c.flags.started then (StartSetup(c), [])
    else if c.flags.prefetched then (AwaitResponse(SetPrefetched(c, false)), [])
    else RequestNext(c, sent, cancelled)
  }

  function StartSetup(c: Client): Client {
    c.(pc := Starting, flags := c.flags.(started := true))
  }

  /** Whether the request for the next batch was already sent, right after the boundary before. */
  function SetPrefetched(c: Client, sent: bool): Client {
    c.(flags := c.flags.(prefetched := sent))
  }

  function FinishSetup(c: Client, sent: bool, cancelled: bool): (Client, seq<Request>) {
    if c.flags.returned then End(Subscribe(c), cancelled) else RequestNext(Subscribe(c), sent, cancelled)
  }

  function Subscribe(c: Client): Client {
    c.(flags := c.flags.(subscribed := true, statusHandler := true))
  }

  function RequestNext(c: Client, sent: bool, cancelled: bool): (Client, seq<Request>) {
    if sent then (Requested(c, Sent), [Next]) else End(c, cancelled)
  }

  function Requested(c: Client, pc: Pc): Client {
    c.(pc := pc, log := c.log.(sent := c.log.sent + 1))
  }

  /** The promise for the next response: returned, queued, failed, ended, or parked. */
  function AwaitResponse(c: Client): Client {
    if c.flags.returned then Resolve(c, Done(0))
    else if c.queue != [] then Resolve(c.(queue := c.queue[1..]), c.queue[0])
    else if c.flags.ended then if c.flags.error then Reject(c) else Resolve(c, Done(0))
    else c.(pc := Parked)
  }

  function Resolve(c: Client, r: Response): Client {
    c.(pc := Resolved(r))
  }

  /** The call fails without a clean-up; the value of its request is owed. */
  function Reject(c: Client): Client {
    c.(pc := Idle, log := c.log.(over := true, owed := c.log.owed + 1))
  }

  /** What next() does once its response is there. */
  function TakeResponse(mode: Mode, c: Client, r: Response, sent: bool, cancelled: bool): (Client, seq<Request>) {
    if c.flags.returned || r.Failure? then End(c, cancelled)
    else if r.Value? then TakeValue(mode, c, r, sent)
    else if mode.Plain? then End(c, cancelled)
    else (Flush(c, r), [])
  }

  function TakeValue(mode: Mode, c: Client, r: Response, sent: bool): (Client, seq<Request>)
    requires r.Value?
  {
    if mode.Plain? then (HandOut(c, r.k), [])
    else if mode.prefetch && !c.flags.ended then Prefetch(c, r, sent)
    else (Flush(c, r), [])
  }

  /** Ask for the next batch before draining this one's callbacks; a failed publish is left to the next call. */
  function Prefetch(c: Client, r: Response, sent: bool): (Client, seq<Request>) {
    if sent then (Requested(c, Prefetching(r)), [Next]) else (Flush(SetPrefetched(c, false), r), [])
  }

  function Flush(c: Client, r: Response): Client {
    c.(pc := Flushing(r))
  }

  function HandOut(c: Client, k: nat): Client {
    c.(pc := Idle, log := c.log.(delivered := c.log.delivered + [k]))
  }

  /** return() and throw(): settle a parked next() as done and clean up. */
  function ReturnEarly(c: Client, cancelled: bool): (Client, seq<Request>) {
    if c.flags.returned then (c, [])
    else if c.flags.started then CleanupOnce(MarkReturned(c), cancelled)
    else (MarkReturned(c), [])
  }

  function MarkReturned(c: Client): Client {
    var c := c.(log := c.log.(over := true), flags := c.flags.(returned := true));
    if c.pc.Parked? then Resolve(c, Done(0)) else c
  }

  /** Connection teardown: record the error and settle a parked next() with it. */
  function SettleParked(c: Client): Client {
    var c := c.(flags := c.flags.(statusHandler := false, error := c.flags.error || !c.flags.ended, ended := true));
    if c.pc.Parked? then Resolve(c, if c.flags.error then Failure(0) else Done(0)) else c
  }

  /** A message reaches the client. */
  function ClientReceive(c: Client, m: Down): Client {
    match m
    case Callback(n) =>
      if c.flags.subscribed then c.(chain := c.chain.(appended := c.chain.appended + [n])) else c
    case Reply(r) =>
      if c.flags.subscribed then Accept(Hear(c, r), r) else c
    case NoResponders =>
      if c.flags.statusHandler then Accept(FailByStatus(c), Failure(0)) else c
  }

  function FailByStatus(c: Client): Client {
    c.(flags := c.flags.(statusHandler := false, ended := true, error := true))
  }

  function Hear(c: Client, r: Response): Client {
    match r
    case Value(_, _) => c
    case Done(_) => c.(log := c.log.(heard := true), flags := c.flags.(ended := true))
    case Failure(_) => c.(log := c.log.(heard := true), flags := c.flags.(ended := true, error := true))
  }

  function Accept(c: Client, r: Response): Client {
    if c.pc.Parked? then Resolve(c, r) else c.(queue := c.queue + [r])
  }

  // ---------------------------------------------------------------- server

  datatype Phase = Waiting | Advancing | Closing

  /**
   * `active` gates requests and the callback proxy alike. The rest counts
   * generator advances, values, callbacks and terminal responses published,
   * and onFinished calls; `lastMark` is the mark of the last value.
   */
  datatype Server = Server(
    open: bool, active: bool, cleaned: bool, phase: Phase,
    advances: nat, values: nat, published: nat, lastMark: nat, terminals: nat, finished: nat)

  const NEW_SERVER := Server(false, false, false, Waiting, 0, 0, 0, 0, 0, 0)

  /** `sent` says whether the publish of the response succeeds, `reported` whether that of the error after it does. */
  datatype ServerEvent =
    | Open
    | Emit
    | Yields(sent: bool, reported: bool)
    | Finishes(sent: bool, reported: bool)
    | Throws(reported: bool)
    | Closed(ok: bool, sent: bool, reported: bool)
    | Cleanup

  predicate ServerEnabled(s: Server, e: ServerEvent) {
    match e
    case Open => !s.open
    case Emit => s.phase.Advancing? && s.active
    case Yields(_, _) => s.phase.Advancing?
    case Finishes(_, _) => s.phase.Advancing?
    case Throws(_) => s.phase.Advancing?
    case Closed(_, _, _) => s.phase.Closing?
    case Cleanup => s.open
  }

  function ServerStep(s: Server, e: ServerEvent): (Server, seq<Down>)
    requires ServerEnabled(s, e)
  {
    match e
    case Open => (s.(open := true, active := true), [])
    case Emit => (s.(published := s.published + 1), [Callback(s.published)])
    case Yields(sent, reported) => PublishValue(s, sent, reported)
    case Finishes(sent, reported) => PublishDone(Finish(s), sent, reported)
    case Throws(reported) => PublishError(s, reported)
    case Closed(ok, sent, reported) => if ok then PublishDone(s, sent, reported) else PublishError(s, reported)
    case Cleanup => (s.(active := false, cleaned := true), [])
  }

  function Finish(s: Server): Server {
    if s.active then s.(active := false, finished := s.finished + 1) else s
  }

  function PublishValue(s: Server, sent: bool, reported: bool): (Server, seq<Down>) {
    if sent then
      (s.(phase := Waiting, values := s.values + 1, lastMark := s.published), [Reply(Value(s.values, s.published))])
    else PublishError(s, reported)
  }

  function PublishDone(s: Server, sent: bool, reported: bool): (Server, seq<Down>) {
    if sent then (s.(phase := Waiting, terminals := s.terminals + 1), [Reply(Done(s.published))])
    else PublishError(s, reported)
  }

  function PublishError(s: Server, reported: bool): (Server, seq<Down>) {
    var s := Finish(s).(phase := Waiting);
    if reported then (s.(terminals := s.terminals + 1), [Reply(Failure(s.published))]) else (s, [])
  }

  /** A request reaches the server, or finds nobody there; the serial dispatcher holds it while a step is under way. */
  function ServerReceive(s: Server, m: Request, status: bool): (Server, seq<Down>) {
    if !s.active then (s, if m.Next? && status then [NoResponders] else [])
    else
      match m
      case Next => (s.(phase := Advancing, advances := s.advances + 1), [])
      case Cancel => (Finish(s).(phase := Closing), [])
  }

  // ---------------------------------------------------------------- both, and the connection

  /** `dropped` counts the `next` requests that found no active session or were lost with the connection. */
  datatype System = System(
    client: Client, server: Server, up: seq<Request>, down: seq<Down>, connected: bool, dropped: nat)

  const NEW_SESSION := System(NEW_CLIENT, NEW_SERVER, [], [], true, 0)

  function Nexts(up: seq<Request>): nat {
    if up == [] then 0 else One(up[0].Next?) + Nexts(up[1..])
  }

  datatype Event =
    | AtClient(c: ClientEvent)
    | AtServer(s: ServerEvent)
    | ToClient
    | ToServer(status: bool)
    | Close

  predicate Enabled(s: System, e: Event) {
    match e
    case AtClient(c) =>
      ClientEnabled(s.client, c) && (ClientSends(c) ==> s.connected) && (c.SetupDone? ==> s.server.open)
    case AtServer(v) =>
      ServerEnabled(s.server, v) && (ServerSends(v) ==> s.connected) && (v.Open? ==> s.client.flags.started)
    case ToClient => s.down != []
    case ToServer(_) => s.up != [] && (s.server.active ==> s.server.phase.Waiting?)
    case Close => true
  }

  predicate ClientSends(e: ClientEvent) {
    match e
    case CallNext(sent, cancelled) => sent || cancelled
    case SetupDone(sent, cancelled) => sent || cancelled
    case SetupFails(cancelled) => cancelled
    case Continue(sent, cancelled) => sent || cancelled
    case Drained(cancelled) => cancelled
    case Return(cancelled) => cancelled
    case _ => false
  }

  predicate ServerSends(e: ServerEvent) {
    match e
    case Emit => true
    case Yields(sent, reported) => sent || reported
    case Finishes(sent, reported) => sent || reported
    case Throws(reported) => reported
    case Closed(_, sent, reported) => sent || reported
    case _ => false
  }

  function Step(mode: Mode, s: System, e: Event): System
    requires Enabled(s, e)
  {
    match e
    case AtClient(c) =>
      var (client, out) := ClientStep(mode, s.client, c);
      s.(client := client, up := s.up + out)
    case AtServer(v) =>
      var (server, out) := ServerStep(s.server, v);
      s.(server := server, down := s.down + out)
    case ToClient => s.(client := ClientReceive(s.client, s.down[0]), down := s.down[1..])
    case ToServer(status) =>
      var (server, out) := ServerReceive(s.server, s.up[0], status);
      s.(server := server, up := s.up[1..], down := s.down + out,
         dropped := s.dropped + One(!s.server.active && s.up[0].Next?))
    case Close => s.(up := [], down := [], connected := false, dropped := s.dropped + Nexts(s.up))
  }

  predicate CanRun(mode: Mode, s: System, events: seq<Event>)
    decreases events
  {
    events == [] || (Enabled(s, events[0]) && CanRun(mode, Step(mode, s, events[0]), events[1..]))
  }

  function After(mode: Mode, s: System, events: seq<Event>): System
    requires CanRun(mode, s, events)
    decreases events
  {
    if events == [] then s else After(mode, Step(mode, s, events[0]), events[1..])
  }
}
