/**
 * The per-subscription serial dispatcher with a synchronous fast path
 * (node/src/utils.ts). A message is known by its place in dispatch order; a
 * promise by the message whose completion it waits for.
 */
module Dispatcher {
  import opened Wire

  /** What the handler does with a message. */
  datatype Reply = Returns | Throws | Resolves | Rejects

  predicate IsPromise(r: Reply) {
    r.Resolves? || r.Rejects?
  }

  predicate Fails(r: Reply) {
    r.Throws? || r.Rejects?
  }

  /** What the handlers do, message by message. */
  type Handler = nat -> Reply

  /** Queued until its promise resolves, then its handler runs, then its completion callback is due. */
  datatype Stage = Queued | Pending | Settled

  /** A completion still to come; `after` is the promise it was chained to. */
  datatype Job = Job(after: Option<nat>, stage: Stage)

  datatype Entry = Started(n: nat) | Ended(n: nat) | Reported(n: nat)

  /** The dispatcher's two variables, the jobs the engine holds for it, and what has been seen from outside. */
  datatype State = State(busy: int, chain: Option<nat>, jobs: map<nat, Job>, next: nat, log: seq<Entry>)

  predicate Initial(s: State) {
    s.busy == 0 && s.chain.None? && s.jobs == map[] && s.next == 0 && s.log == []
  }

  /** One atomic turn of the event loop. */
  datatype Event = Dispatch | Run(job: nat) | Settle(job: nat) | Complete(job: nat)

  predicate Enabled(s: State, e: Event) {
    match e
    case Dispatch => true
    case Run(k) => k in s.jobs && s.jobs[k].stage.Queued? && Resolved(s, s.jobs[k].after)
    case Settle(k) => k in s.jobs && s.jobs[k].stage.Pending?
    case Complete(k) => k in s.jobs && s.jobs[k].stage.Settled?
  }

  predicate Resolved(s: State, promise: Option<nat>) {
    promise.Some? ==> promise.value !in s.jobs
  }

  /** Call the handler: a synchronous one ends at once. */
  function Call(h: Handler, n: nat): seq<Entry> {
    [Started(n)] + if IsPromise(h(n)) then [] else [Ended(n)]
  }

  function Report(h: Handler, n: nat): seq<Entry> {
    if Fails(h(n)) then [Reported(n)] else []
  }

  function Step(h: Handler, s: State, e: Event): State
    requires Enabled(s, e)
  {
    match e
    case Dispatch => if s.busy == 0 then Inline(h, s) else Append(s)
    case Run(k) =>
      var stage := if IsPromise(h(k)) then Pending else Settled;
      s.(jobs := s.jobs[k := s.jobs[k].(stage := stage)], log := s.log + Call(h, k))
    case Settle(k) => s.(jobs := s.jobs[k := s.jobs[k].(stage := Settled)], log := s.log + [Ended(k)])
    case Complete(k) => s.(jobs := s.jobs - {k}, busy := s.busy - 1, log := s.log + Report(h, k))
  }

  function Inline(h: Handler, s: State): State {
    var n := s.next;
    if IsPromise(h(n)) then
      State(s.busy + 1, Some(n), s.jobs[n := Job(None, Pending)], n + 1, s.log + Call(h, n))
    else
      s.(next := n + 1, log := s.log + Call(h, n) + Report(h, n))
  }

  function Append(s: State): State {
    State(s.busy + 1, Some(s.next), s.jobs[s.next := Job(s.chain, Queued)], s.next + 1, s.log)
  }

  /** The promise a flush hands out: none means already resolved. */
  function Flush(s: State): Option<nat> {
    if s.busy == 0 then None else s.chain
  }

  // ---------------------------------------------------------------- reference: one message at a time

  /** What a loop shows that calls each handler in turn and awaits it before the next. */
  function Serial(h: Handler, n: nat): seq<Entry> {
    if n == 0 then [] else Serial(h, n - 1) + Turn(h(n - 1), n - 1)
  }

  /** One message by itself: it starts, ends, and is reported if it threw or rejected. */
  function Turn(r: Reply, n: nat): seq<Entry> {
    match r
    case Returns => [Started(n), Ended(n)]
    case Resolves => [Started(n), Ended(n)]
    case Throws => [Started(n), Ended(n), Reported(n)]
    case Rejects => [Started(n), Ended(n), Reported(n)]
  }

  /** The part of the current message seen so far. */
  function Partial(stage: Stage, n: nat): seq<Entry> {
    match stage
    case Queued => []
    case Pending => [Started(n)]
    case Settled => [Started(n), Ended(n)]
  }

  /** The first message not yet completed. */
  function First(s: State): int {
    s.next - s.busy
  }

  ghost predicate Inv(h: Handler, s: State) {
    && 0 <= First(s) <= s.next
    && (forall k: nat :: k in s.jobs <==> First(s) <= k < s.next)
    && (forall k :: k in s.jobs && k > First(s) ==> s.jobs[k] == Job(Some(k - 1), Queued))
    && (s.busy > 0 ==> s.chain == Some(s.next - 1) && Current(h, s.jobs[First(s)], First(s)))
    && s.log == Serial(h, First(s)) + if s.busy > 0 then Partial(s.jobs[First(s)].stage, First(s)) else []
  }

  predicate Current(h: Handler, job: Job, n: nat) {
    && (job.stage.Pending? ==> IsPromise(h(n)))
    && (job.stage.Queued? && job.after.Some? ==> job.after.value < n)
  }

  lemma InitialInv(h: Handler, s: State)
    requires Initial(s)
    ensures Inv(h, s)
  {
  }

  /** The log is that of the completed messages and part of the current one's. */
  lemma LogBetween(h: Handler, s: State)
    requires Inv(h, s)
    ensures Serial(h, First(s)) <= s.log <= Serial(h, First(s) + 1)
    ensures s.busy == 0 ==> s.log == Serial(h, s.next)
  {
    var n := First(s);
    assert Serial(h, n + 1) == Serial(h, n) + Turn(h(n), n);
  }

  /** Only the first unfinished message can move: the chain makes the others wait. */
  lemma OnlyFirstMoves(h: Handler, s: State, e: Event)
    requires Inv(h, s) && Enabled(s, e) && !e.Dispatch?
    ensures s.busy > 0 && e.job == First(s)
  {
  }

  lemma StepKeepsInv(h: Handler, s: State, e: Event)
    requires Inv(h, s) && Enabled(s, e)
    ensures Inv(h, Step(h, s, e))
  {
    if e.Dispatch? {
      DispatchKeepsInv(h, s);
    } else {
      OnlyFirstMoves(h, s, e);
    }
  }

  lemma DispatchKeepsInv(h: Handler, s: State)
    requires Inv(h, s)
    ensures Inv(h, Step(h, s, Dispatch))
  {
  }

  lemma {:induction false} KeysSize(keys: set<nat>, from: nat, to: nat)
    requires from <= to && forall k: nat :: k in keys <==> from <= k < to
    ensures |keys| == to - from
    decreases keys
  {
    if from < to {
      KeysSize(keys - {from}, from + 1, to);
    }
  }

  // ---------------------------------------------------------------- runs

  predicate CanRun(h: Handler, s: State, events: seq<Event>)
    decreases events
  {
    events == [] || (Enabled(s, events[0]) && CanRun(h, Step(h, s, events[0]), events[1..]))
  }

  function After(h: Handler, s: State, events: seq<Event>): State
    requires CanRun(h, s, events)
    decreases events
  {
    if events == [] then s else After(h, Step(h, s, events[0]), events[1..])
  }

  lemma {:induction false} RunKeepsInv(h: Handler, s: State, events: seq<Event>)
    requires Inv(h, s) && CanRun(h, s, events)
    ensures Inv(h, After(h, s, events)) && After(h, s, events).next >= s.next
    decreases events
  {
    if events != [] {
      StepKeepsInv(h, s, events[0]);
      RunKeepsInv(h, Step(h, s, events[0]), events[1..]);
    }
  }

  /** How many messages a run takes in. */
  function Dispatches(events: seq<Event>): nat {
    if events == [] then 0 else One(events[0].Dispatch?) + Dispatches(events[1..])
  }

  /** None is lost: each dispatch takes in one message, idle or busy. */
  lemma {:induction false} RunTakesIn(h: Handler, s: State, events: seq<Event>)
    requires CanRun(h, s, events)
    ensures After(h, s, events).next == s.next + Dispatches(events)
    decreases events
  {
    if events != [] {
      RunTakesIn(h, Step(h, s, events[0]), events[1..]);
    }
  }

  /**
   * In every reachable state the outside has seen what the one-at-a-time loop
   * shows over the messages dispatched, up to its current one: handlers start in
   * dispatch order, never overlap, and each failure is reported once. `busy`
   * counts the messages not completed; when it is 0 the loop is through them all.
   */
  lemma RefinesSerialLoop(h: Handler, s0: State, events: seq<Event>)
    requires Initial(s0) && CanRun(h, s0, events)
    ensures var s, n := After(h, s0, events), Dispatches(events);
            && s.busy == |s.jobs| && 0 <= s.busy <= n
            && Serial(h, n - s.busy) <= s.log <= Serial(h, n - s.busy + 1)
            && (s.busy == 0 ==> s.log == Serial(h, n))
  {
    InitialInv(h, s0);
    RunKeepsInv(h, s0, events);
    RunTakesIn(h, s0, events);
    var s := After(h, s0, events);
    LogBetween(h, s);
    KeysSize(s.jobs.Keys, First(s), s.next);
  }

  /** The fast path: a message that finds the dispatcher idle is handled at once, and through if synchronous. */
  lemma IdleRunsInline(h: Handler, s: State)
    requires Inv(h, s) && s.busy == 0
    ensures var r := Step(h, s, Dispatch);
            if h(s.next).Returns? || h(s.next).Throws? then r.busy == 0 && r.log == Serial(h, s.next + 1)
            else r.busy == 1 && r.log == Serial(h, s.next) + [Started(s.next)]
  {
    LogBetween(h, s);
    DispatchKeepsInv(h, s);
  }

  /** A message that finds it busy is not called yet. */
  lemma BusyDefers(h: Handler, s: State)
    requires Inv(h, s) && s.busy > 0
    ensures var r := Step(h, s, Dispatch); r.log == s.log && r.busy == s.busy + 1 && First(r) == First(s)
  {
  }

  /** The current message can always go on as soon as its own handler lets it: no failure blocks the rest. */
  lemma NeverStuck(h: Handler, s: State)
    requires Inv(h, s) && s.busy > 0
    ensures var k := First(s); Enabled(s, Run(k)) || Enabled(s, Settle(k)) || Enabled(s, Complete(k))
  {
    var k := First(s);
    assert k in s.jobs;
  }

  /** What is still to do: three turns for a message waiting, two for one called, one for one settled. */
  function Rank(s: State): int
    requires s.busy > 0 ==> First(s) >= 0 && First(s) in s.jobs
  {
    if s.busy <= 0 then 0
    else
      match s.jobs[First(s)].stage
      case Queued => 3 * s.busy
      case Pending => 3 * s.busy - 1
      case Settled => 3 * s.busy - 2
  }

  /** Every turn that takes in no message leaves less to do, so a dispatcher left alone comes to rest. */
  lemma StepLeavesLess(h: Handler, s: State, e: Event)
    requires Inv(h, s) && Enabled(s, e) && !e.Dispatch?
    ensures Inv(h, Step(h, s, e)) && 0 <= Rank(Step(h, s, e)) < Rank(s)
  {
    OnlyFirstMoves(h, s, e);
    StepKeepsInv(h, s, e);
  }

  /** Every message dispatched is handled: from any reachable state the rest can be run to its end. */
  lemma {:induction false} Drains(h: Handler, s: State) returns (events: seq<Event>)
    requires Inv(h, s)
    ensures CanRun(h, s, events) && Dispatches(events) == 0
    ensures After(h, s, events).busy == 0 && After(h, s, events).log == Serial(h, s.next)
    decreases Rank(s)
  {
    if s.busy == 0 {
      events := [];
      LogBetween(h, s);
    } else {
      var k := First(s);
      NeverStuck(h, s);
      var e := if Enabled(s, Run(k)) then Run(k) else if Enabled(s, Settle(k)) then Settle(k) else Complete(k);
      StepLeavesLess(h, s, e);
      var rest := Drains(h, Step(h, s, e));
      events := [e] + rest;
      assert events[1..] == rest;
    }
  }

  /**
   * A flush after some messages: its promise is resolved exactly when as many
   * have completed, and the outside has then seen all of them through.
   */
  lemma FlushWaits(h: Handler, s0: State, before: seq<Event>, later: seq<Event>)
    requires Initial(s0) && CanRun(h, s0, before) && CanRun(h, After(h, s0, before), later)
    ensures var s, n := After(h, s0, before), Dispatches(before);
            var r := After(h, s, later);
            && (Resolved(r, Flush(s)) <==> n + Dispatches(later) - r.busy >= n)
            && (Resolved(r, Flush(s)) ==> Serial(h, n) <= r.log)
  {
    InitialInv(h, s0);
    RunKeepsInv(h, s0, before);
    RunTakesIn(h, s0, before);
    var s := After(h, s0, before);
    RunTakesIn(h, s, later);
    FlushResolves(h, s, later);
  }

  lemma FlushResolves(h: Handler, s: State, events: seq<Event>)
    requires Inv(h, s) && CanRun(h, s, events)
    ensures var s' := After(h, s, events);
            && (Resolved(s', Flush(s)) <==> First(s') >= s.next)
            && (Resolved(s', Flush(s)) ==> Serial(h, s.next) <= s'.log)
  {
    RunKeepsInv(h, s, events);
    FirstGrows(h, s, events);
    var s' := After(h, s, events);
    if First(s') >= s.next {
      SerialGrows(h, s.next, First(s'));
    }
  }

  lemma {:induction false} FirstGrows(h: Handler, s: State, events: seq<Event>)
    requires Inv(h, s) && CanRun(h, s, events)
    ensures First(After(h, s, events)) >= First(s)
    decreases events
  {
    if events != [] {
      StepKeepsInv(h, s, events[0]);
      FirstGrows(h, Step(h, s, events[0]), events[1..]);
    }
  }

  lemma {:induction false} SerialGrows(h: Handler, n: nat, m: nat)
    requires n <= m
    ensures Serial(h, n) <= Serial(h, m)
  {
    if n < m {
      SerialGrows(h, n, m - 1);
    }
  }

  /** The dispatcher as the closure over `busy` and `chain`, with the engine's pending jobs beside it. */
  class SerialDispatcher {
    const handler: Handler
    var busy: int
    var chain: Option<nat>
    var jobs: map<nat, Job>
    var next: nat
    ghost var log: seq<Entry>

    constructor (handler: Handler)
      ensures this.handler == handler && Initial(Abs()) && Valid()
    {
      this.handler, busy, chain, jobs, next, log := handler, 0, None, map[], 0, [];
      new;
      InitialInv(handler, Abs());
    }

    ghost function Abs(): State
      reads this
    {
      State(busy, chain, jobs, next, log)
    }

    ghost predicate Valid()
      reads this
    {
      Inv(handler, Abs())
    }

    /** Run the handler inline when nothing is pending, or append it to the chain. */
    method DispatchMessage()
      requires Valid()
      modifies this
      ensures Valid() && Abs() == Step(handler, old(Abs()), Dispatch)
      ensures next == old(next) + 1 && (old(busy) > 0 ==> busy == old(busy) + 1 && log == old(log))
      ensures old(busy) == 0 && busy == 0 ==> log == Serial(handler, next)
    {
      DispatchKeepsInv(handler, Abs());
      var n := next;
      next := next + 1;
      if busy == 0 {
        log := log + Call(handler, n);
        var result := handler(n);
        if result.Throws? {
          log := log + [Reported(n)];
          return;
        }
        if IsPromise(result) {
          busy := busy + 1;
          jobs := jobs[n := Job(None, Pending)];
          chain := Some(n);
        }
        return;
      }
      busy := busy + 1;
      jobs := jobs[n := Job(chain, Queued)];
      chain := Some(n);
    }

    /** The engine starts a queued handler whose promise has resolved. */
    method RunJob(k: nat)
      requires Valid() && Enabled(Abs(), Run(k))
      modifies this`jobs, this`log
      ensures Valid() && Abs() == Step(handler, old(Abs()), Run(k))
    {
      StepKeepsInv(handler, Abs(), Run(k));
      log := log + Call(handler, k);
      jobs := jobs[k := jobs[k].(stage := if IsPromise(handler(k)) then Pending else Settled)];
    }

    /** The promise a handler returned is settled. */
    method SettleJob(k: nat)
      requires Valid() && Enabled(Abs(), Settle(k))
      modifies this`jobs, this`log
      ensures Valid() && Abs() == Step(handler, old(Abs()), Settle(k))
    {
      StepKeepsInv(handler, Abs(), Settle(k));
      log := log + [Ended(k)];
      jobs := jobs[k := jobs[k].(stage := Settled)];
    }

    /** The completion callback: count down, then report a failure. */
    method CompleteJob(k: nat)
      requires Valid() && Enabled(Abs(), Complete(k))
      modifies this`busy, this`jobs, this`log
      ensures Valid() && Abs() == Step(handler, old(Abs()), Complete(k))
      ensures busy == old(busy) - 1 && Serial(handler, k + 1) == log
    {
      StepKeepsInv(handler, Abs(), Complete(k));
      jobs := jobs - {k};
      busy := busy - 1;
      if Fails(handler(k)) {
        log := log + [Reported(k)];
      }
    }

    method FlushChain() returns (promise: Option<nat>)
      requires Valid()
      ensures promise == Flush(Abs())
      ensures Resolved(Abs(), promise) <==> First(Abs()) == next
    {
      promise := if busy == 0 then None else chain;
    }
  }
}
