/**
 * Calls waiting for their response on the muxed reply inbox
 * (node/src/client.ts): settled by a response, a no-responders status, a
 * timeout, a failed publish or a teardown.
 */
module Calls {
  import opened Wire
  import opened Values
  import opened Transfers
  import opened Delivery
  import Codec
  import Extraction

  /** How a call ends: a response's result or error, a status, its timer, its publish, or the connection. */
  datatype Ending = Answered(result: Option<Value>) | Refused(error: Value) | NoResponder | Expired | Unsent | Closed

  datatype Settlement = Settlement(id: string, ending: Ending)

  /** Waiting calls with their request subjects and timers, status handlers, and what has been settled. */
  datatype Client = Client(
    pending: map<string, string>, timers: set<string>, statusHandlers: set<string>, manager: Manager,
    settled: seq<Settlement>, registered: set<string>)

  /** The callback of the mux for every chunked response. */
  const MUX: Callback := 0

  const RESPONSE_ID := "id"
  const RESPONSE_ERROR := "error"
  const RESPONSE_RESULT := "result"

  predicate Truthy(v: Value) {
    match v
    case Nil => false
    case Bool(b) => b
    case Int(n) => n != 0
    case Str(s) => s != ""
    case _ => true
  }

  /** The call a response belongs to. */
  function ResponseId(v: Value): Option<string> {
    match Field(v, RESPONSE_ID)
    case Some(Str(id)) => if id == "" then None else Some(id)
    case _ => None
  }

  function EndingOf(v: Value): Ending {
    var error := Field(v, RESPONSE_ERROR);
    if error.Some? && Truthy(error.value) then Refused(error.value) else Answered(Field(v, RESPONSE_RESULT))
  }

  datatype Event =
    | Register(id: string, subject: string)
    | WatchStatus(id: string)
    | DropStatus(id: string)
    | Expire(id: string)
    | PublishFails(id: string)
    | Message(a: Arrival)
    | Status(suffix: string)
    | Teardown(order: seq<string>)
    | NewManager

  /**
   * Call ids are fresh, a timer fires only while armed, a teardown goes through
   * every waiting call. After more awaits it may replace the chunking manager.
   */
  predicate Enabled(c: Client, e: Event) {
    match e
    case Register(id, _) => id !in c.registered
    case Expire(id) => id in c.timers
    case Teardown(order) => Enumerates(order, c.pending.Keys)
    case _ => true
  }

  predicate Enumerates(order: seq<string>, ids: set<string>) {
    && (forall i :: 0 <= i < |order| ==> order[i] in ids)
    && (forall i, j :: 0 <= i < j < |order| ==> order[i] != order[j])
    && (forall id :: id in ids ==> id in order)
  }

  lemma EnumeratesMore(order: seq<string>, ids: set<string>, id: string)
    requires Enumerates(order, ids) && id !in ids
    ensures Enumerates(order + [id], ids + {id})
  {
  }

  function CallsStep(mp: Msgpack, c: Client, e: Event): Client {
    match e
    case Register(id, subject) =>
      c.(pending := c.pending[id := subject], timers := c.timers + {id}, registered := c.registered + {id})
    case WatchStatus(id) => c.(statusHandlers := c.statusHandlers + {id})
    case DropStatus(id) => c.(statusHandlers := c.statusHandlers - {id})
    case Expire(id) => SettleIfPending(c.(timers := c.timers - {id}), id, Expired)
    case PublishFails(id) => SettleIfPending(c, id, Unsent)
    case Message(a) =>
      var r := Receive(mp, c.manager, a);
      var handed := Handed(r, a);
      if handed.Some? then Route(c.(manager := r.manager), handed.value) else c.(manager := r.manager)
    case Status(suffix) =>
      if suffix in c.statusHandlers then c.(statusHandlers := c.statusHandlers - {suffix})
      else SettleIfPending(c, suffix, NoResponder)
    case Teardown(order) => CloseAll(c, order).(statusHandlers := {})
    case NewManager => c.(manager := EMPTY)
  }

  function SettleIfPending(c: Client, id: string, ending: Ending): Client {
    if id in c.pending then
      c.(pending := c.pending - {id}, timers := c.timers - {id}, settled := c.settled + [Settlement(id, ending)])
    else c
  }

  /** Settle the call a response belongs to; unknown ids are dropped. */
  function Route(c: Client, v: Value): Client {
    var id := ResponseId(v);
    if id.Some? then SettleIfPending(c, id.value, EndingOf(v)) else c
  }

  /**
   * The response one message hands to the router: a plain one on the reply
   * inbox, or the transfer it completes, if that was announced there.
   */
  function Handed(r: Received, a: Arrival): Option<Value> {
    if a.message.Plain? then if a.handler == MUX then r.direct else None
    else
      match End(r, a.message.transferId)
      case Some(Delivered(callback, v)) => if callback == MUX then Some(v) else None
      case _ => None
  }

  function End(r: Received, transferId: string): Option<Outcome> {
    if transferId in r.ended then Some(r.ended[transferId]) else None
  }

  function CloseAll(c: Client, order: seq<string>): Client
    decreases order
  {
    if order == [] then c else CloseAll(SettleIfPending(c, order[0], Closed), order[1..])
  }

  // ---------------------------------------------------------------- settled exactly once

  function Ids(settled: seq<Settlement>): set<string> {
    set s | s in settled :: s.id
  }

  /**
   * Registered calls are the disjoint union of the pending and the settled; each
   * is settled once; timers run for the pending.
   */
  predicate CallsInv(c: Client) {
    && c.timers == c.pending.Keys
    && c.pending.Keys !! Ids(c.settled)
    && c.pending.Keys + Ids(c.settled) == c.registered
    && forall i, j :: 0 <= i < j < |c.settled| ==> c.settled[i].id != c.settled[j].id
  }

  lemma SettleKeepsInv(c: Client, id: string, ending: Ending)
    requires CallsInv(c)
    ensures CallsInv(SettleIfPending(c, id, ending))
  {
    if id in c.pending {
      var s := Settlement(id, ending);
      assert forall x :: x in c.settled + [s] <==> x in c.settled || x == s;
      assert Ids(c.settled + [s]) == Ids(c.settled) + {id};
      forall i | 0 <= i < |c.settled|
        ensures c.settled[i].id != id
      {
        assert c.settled[i].id in Ids(c.settled);
      }
    }
  }

  lemma {:induction false} CloseAllKeepsInv(c: Client, order: seq<string>)
    requires CallsInv(c)
    ensures CallsInv(CloseAll(c, order))
    ensures CloseAll(c, order).pending.Keys == c.pending.Keys - set id | id in order
    decreases order
  {
    if order != [] {
      SettleKeepsInv(c, order[0], Closed);
      CloseAllKeepsInv(SettleIfPending(c, order[0], Closed), order[1..]);
      assert order == [order[0]] + order[1..];
    }
  }

  lemma StepKeepsInv(mp: Msgpack, c: Client, e: Event)
    requires CallsInv(c) && Enabled(c, e)
    ensures CallsInv(CallsStep(mp, c, e))
  {
    match e
    case Register(id, subject) =>
    case WatchStatus(_) =>
    case DropStatus(_) =>
    case Expire(id) =>
      SettleKeepsInv(c, id, Expired);
    case PublishFails(id) => SettleKeepsInv(c, id, Unsent);
    case Message(a) =>
      var r := Receive(mp, c.manager, a);
      var handed := Handed(r, a);
      if handed.Some? && ResponseId(handed.value).Some? {
        SettleKeepsInv(c.(manager := r.manager), ResponseId(handed.value).value, EndingOf(handed.value));
      }
    case Status(suffix) => SettleKeepsInv(c, suffix, NoResponder);
    case Teardown(order) => CloseAllKeepsInv(c, order);
    case NewManager =>
  }

  predicate CanRun(mp: Msgpack, c: Client, events: seq<Event>)
    decreases events
  {
    events == [] || (Enabled(c, events[0]) && CanRun(mp, CallsStep(mp, c, events[0]), events[1..]))
  }

  function After(mp: Msgpack, c: Client, events: seq<Event>): Client
    requires CanRun(mp, c, events)
    decreases events
  {
    if events == [] then c else After(mp, CallsStep(mp, c, events[0]), events[1..])
  }

  /** A settlement is never undone. */
  lemma {:induction false} CloseAllAppends(c: Client, order: seq<string>)
    ensures c.settled <= CloseAll(c, order).settled
    decreases order
  {
    if order != [] {
      CloseAllAppends(SettleIfPending(c, order[0], Closed), order[1..]);
    }
  }

  /** Over any run every registered call is either still pending or settled exactly once, and stays so. */
  lemma {:induction false} CallsSettleOnce(mp: Msgpack, c: Client, events: seq<Event>)
    requires CallsInv(c) && CanRun(mp, c, events)
    ensures CallsInv(After(mp, c, events)) && c.settled <= After(mp, c, events).settled
    decreases events
  {
    if events != [] {
      StepKeepsInv(mp, c, events[0]);
      if events[0].Teardown? {
        CloseAllAppends(c, events[0].order);
      }
      CallsSettleOnce(mp, CallsStep(mp, c, events[0]), events[1..]);
    }
  }

  /** A message settles at most the call its response names, and leaves every other call as it was. */
  lemma ResponseSettlesOnlyItsCall(mp: Msgpack, c: Client, a: Arrival)
    requires CallsInv(c)
    ensures var c' := CallsStep(mp, c, Message(a));
            var v := Handed(Receive(mp, c.manager, a), a);
            if v.Some? && ResponseId(v.value).Some? && ResponseId(v.value).value in c.pending then
              var id := ResponseId(v.value).value;
              Settles(c, c', id, EndingOf(v.value)) && Tells(v.value, EndingOf(v.value))
            else c'.pending == c.pending && c'.settled == c.settled
  {
  }

  /** A teardown tells every waiting call that the connection closed, once, and leaves none waiting. */
  lemma TeardownLeavesNone(mp: Msgpack, c: Client, order: seq<string>)
    requires CallsInv(c) && Enabled(c, Teardown(order))
    ensures var c' := CallsStep(mp, c, Teardown(order));
            && c'.pending == map[] && c'.timers == {} && c'.statusHandlers == {} && CallsInv(c')
            && c'.settled == c.settled + Closings(order)
  {
    CloseAllKeepsInv(c, order);
    CloseAllTellsAll(c, order);
    assert c.pending.Keys - (set id | id in order) == {};
  }

  /** Every call is told that the connection closed. */
  function Closings(order: seq<string>): seq<Settlement> {
    if order == [] then [] else [Settlement(order[0], Closed)] + Closings(order[1..])
  }

  lemma {:induction false} ClosingsMore(order: seq<string>, id: string)
    ensures Closings(order + [id]) == Closings(order) + [Settlement(id, Closed)]
  {
    if order == [] {
      assert order + [id] == [id] && [id][1..] == [];
    } else {
      assert (order + [id])[1..] == order[1..] + [id];
      ClosingsMore(order[1..], id);
    }
  }

  lemma {:induction false} CloseAllTellsAll(c: Client, order: seq<string>)
    requires forall i :: 0 <= i < |order| ==> order[i] in c.pending
    requires forall i, j :: 0 <= i < j < |order| ==> order[i] != order[j]
    ensures CloseAll(c, order).settled == c.settled + Closings(order)
    decreases order
  {
    if order != [] {
      var rest, first := order[1..], SettleIfPending(c, order[0], Closed);
      CloseAllTellsAll(first, rest);
      assert c.settled + Closings(order) == (c.settled + [Settlement(order[0], Closed)]) + Closings(rest);
    }
  }

  // ---------------------------------------------------------------- how each event ends a call

  /** The messages of a responder. */
  function ResultMessage(id: string, result: Value): Value {
    Map(["id", "result"], [Str(id), result])
  }

  function ErrorMessage(id: string, error: Value): Value {
    Map(["id", "error"], [Str(id), error])
  }

  /** The ending a response tells: its error, unless that is missing or falsy; else its result, if it has one. */
  predicate Tells(v: Value, ending: Ending) {
    match Field(v, "error")
    case None => ending == Answered(Field(v, "result"))
    case Some(Nil) => ending == Answered(Field(v, "result"))
    case Some(Bool(b)) => ending == if b then Refused(Bool(true)) else Answered(Field(v, "result"))
    case Some(Int(n)) => ending == if n != 0 then Refused(Int(n)) else Answered(Field(v, "result"))
    case Some(Str(s)) => ending == if s != "" then Refused(Str(s)) else Answered(Field(v, "result"))
    case Some(error) => ending == Refused(error)
  }

  lemma EndingTells(v: Value)
    ensures Tells(v, EndingOf(v))
    ensures forall ending :: Tells(v, ending) ==> ending == EndingOf(v)
  {
  }

  /** The waiting call is settled, last and with this ending; the others wait on. */
  predicate Settles(c: Client, c': Client, id: string, ending: Ending) {
    && c'.pending == c.pending - {id} && c'.timers == c.timers - {id}
    && c'.settled == c.settled + [Settlement(id, ending)] && c'.registered == c.registered
  }

  lemma MessageFields(id: string, x: Value)
    ensures var ok, error := ResultMessage(id, x), ErrorMessage(id, x);
            && Field(ok, "id") == Some(Str(id)) && Field(ok, "result") == Some(x) && Field(ok, "error") == None
            && Field(error, "id") == Some(Str(id)) && Field(error, "error") == Some(x) && Field(error, "result") == None
  {
    assert |"id"| == 2 && |"result"| == 6 && |"error"| == 5;
    assert ["id", "result"][1..] == ["result"] && [Str(id), x][1..] == [x] && ["id", "error"][1..] == ["error"];
    assert ["result"][1..] == [] && ["error"][1..] == [] && [x][1..] == [];
    assert Lookup([], [], "error") == None && Lookup([], [], "result") == None;
    assert Lookup(["result"], [x], "result") == Some(x) && Lookup(["result"], [x], "error") == None;
    assert Lookup(["error"], [x], "error") == Some(x) && Lookup(["error"], [x], "result") == None;
    assert Lookup(["id", "result"], [Str(id), x], "error") == Lookup(["result"], [x], "error");
    assert Lookup(["id", "result"], [Str(id), x], "result") == Lookup(["result"], [x], "result");
    assert Lookup(["id", "error"], [Str(id), x], "error") == Lookup(["error"], [x], "error");
    assert Lookup(["id", "error"], [Str(id), x], "result") == Lookup(["error"], [x], "result");
  }

  /** A waiting call gets the result a responder sends it, and a truthy error refuses it with that error. */
  lemma ResponderSettles(mp: Msgpack, c: Client, a: Arrival, id: string, x: Value)
    requires CallsInv(c) && id in c.pending && id != ""
    requires a.message.Plain? && a.handler == MUX && Codec.Decode(mp, a.message.data).Ok?
    ensures var c', v := CallsStep(mp, c, Message(a)), Codec.Decode(mp, a.message.data).value;
            && (v == ResultMessage(id, x) ==> Settles(c, c', id, Answered(Some(x))))
            && (v == ErrorMessage(id, x) && x != Nil && x != Bool(false) && x != Int(0) && x != Str("") ==>
                  Settles(c, c', id, Refused(x)))
            && (v == ErrorMessage(id, x) && (x == Nil || x == Bool(false) || x == Int(0) || x == Str("")) ==>
                  Settles(c, c', id, Answered(None)))
  {
    MessageFields(id, x);
    EndingTells(Codec.Decode(mp, a.message.data).value);
  }

  /** A plain message of another subscription, and a response to no waiting call, settle nothing. */
  lemma OthersSettleNothing(mp: Msgpack, c: Client, a: Arrival)
    requires a.message.Plain?
    requires a.handler != MUX || Codec.Decode(mp, a.message.data).Err? ||
             var id := Field(Codec.Decode(mp, a.message.data).value, "id");
             !(id.Some? && id.value.Str? && id.value.s != "" && id.value.s in c.pending)
    ensures CallsStep(mp, c, Message(a)) == c
  {
  }

  /** Nor does a transfer that another subscription announced, or one that fails. */
  lemma OtherTransfersSettleNothing(mp: Msgpack, c: Client, a: Arrival)
    requires !a.message.Plain?
    requires var ended := Receive(mp, c.manager, a).ended; var id := a.message.transferId;
             id in ended && ended[id].Delivered? ==> ended[id].callback != MUX
    ensures var c' := CallsStep(mp, c, Message(a));
            c' == c.(manager := c'.manager)
  {
  }

  /** Messages and statuses are taken in every state, a fresh call can be made, and a teardown go through. */
  lemma AlwaysTaken(c: Client, a: Arrival, id: string) returns (order: seq<string>)
    ensures Enabled(c, Message(a)) && Enabled(c, Status(id)) && Enabled(c, PublishFails(id)) && Enabled(c, NewManager)
    ensures Enabled(c, WatchStatus(id)) && Enabled(c, DropStatus(id))
    ensures Enabled(c, Register(id, "")) <==> id !in c.registered
    ensures Enabled(c, Teardown(order))
  {
    order := Enumerated(c.pending.Keys);
  }

  lemma {:induction false} Enumerated(ids: set<string>) returns (order: seq<string>)
    ensures Enumerates(order, ids)
  {
    if ids == {} {
      order := [];
    } else {
      var id :| id in ids;
      var rest := Enumerated(ids - {id});
      EnumeratesMore(rest, ids - {id}, id);
      assert ids - {id} + {id} == ids;
      order := rest + [id];
    }
  }

  /** A call made is waiting, with its timer armed; its timer, a failed publish and a status each settle it so. */
  lemma OthersSettle(mp: Msgpack, c: Client, id: string, subject: string)
    requires CallsInv(c)
    ensures id !in c.registered ==>
              var c' := CallsStep(mp, c, Register(id, subject));
              id in c'.pending && c'.pending[id] == subject && id in c'.timers && c'.settled == c.settled
    ensures id in c.pending ==>
              && Enabled(c, Expire(id)) && Settles(c, CallsStep(mp, c, Expire(id)), id, Expired)
              && Settles(c, CallsStep(mp, c, PublishFails(id)), id, Unsent)
              && (id !in c.statusHandlers ==> Settles(c, CallsStep(mp, c, Status(id)), id, NoResponder))
  {
    if id in c.pending {
      assert (c.timers - {id}) - {id} == c.timers - {id};
    }
  }

  /** A status handler takes the first status for its token and no other; a dropped one takes none. */
  lemma HandlerComesFirst(mp: Msgpack, c: Client, id: string)
    requires CallsInv(c) && id in c.pending
    ensures var watched := CallsStep(mp, c, WatchStatus(id));
            var fired := CallsStep(mp, watched, Status(id));
            && fired.pending == c.pending && fired.settled == c.settled
            && Settles(fired, CallsStep(mp, fired, Status(id)), id, NoResponder)
    ensures var dropped := CallsStep(mp, c, DropStatus(id));
            dropped.pending == c.pending && Settles(dropped, CallsStep(mp, dropped, Status(id)), id, NoResponder)
  {
  }

  // ---------------------------------------------------------------- a response finds its call

  /** The messages of a run, on whatever subscription. */
  function Arrivals(events: seq<Event>): seq<Arrival> {
    if events == [] then []
    else (if events[0].Message? then [events[0].a] else []) + Arrivals(events[1..])
  }

  /** The responses the messages hand to the router, in order. */
  function HandedAll(mp: Msgpack, m: Manager, arrivals: seq<Arrival>): seq<Value>
    decreases arrivals
  {
    if arrivals == [] then []
    else
      var r := Receive(mp, m, arrivals[0]);
      var handed := Handed(r, arrivals[0]);
      (if handed.Some? then [handed.value] else []) + HandedAll(mp, r.manager, arrivals[1..])
  }

  /** Nothing but a response can settle this call, and no transfer is dropped with its manager. */
  predicate Undisturbed(mp: Msgpack, c: Client, events: seq<Event>, id: string)
    decreases events
  {
    events != [] ==> Harmless(c, events[0], id) && Undisturbed(mp, CallsStep(mp, c, events[0]), events[1..], id)
  }

  predicate Harmless(c: Client, e: Event, id: string) {
    match e
    case Expire(x) => x != id
    case PublishFails(x) => x != id
    case Status(x) => x != id || id in c.statusHandlers
    case Teardown(_) => false
    case NewManager => false
    case _ => true
  }

  /** The first response naming the call, if there is one. */
  function FirstFor(vs: seq<Value>, id: string): Option<Value> {
    if vs == [] then None
    else if ResponseId(vs[0]) == Some(id) then Some(vs[0])
    else FirstFor(vs[1..], id)
  }

  /** An undisturbed call is settled by the first response naming it, among any other traffic; without one it waits. */
  lemma {:induction false} FirstResponseSettles(mp: Msgpack, c: Client, events: seq<Event>, id: string)
    requires CallsInv(c) && CanRun(mp, c, events) && Undisturbed(mp, c, events, id) && id in c.pending
    ensures var c' := After(mp, c, events);
            var v := FirstFor(HandedAll(mp, c.manager, Arrivals(events)), id);
            if v.Some? then
              id !in c'.pending && exists ending :: Tells(v.value, ending) && Settlement(id, ending) in c'.settled
            else id in c'.pending
    decreases events
  {
    if events != [] {
      var c1 := CallsStep(mp, c, events[0]);
      StepKeepsInv(mp, c, events[0]);
      HarmlessStep(mp, c, events[0], id);
      FirstOfStep(mp, c, events, id);
      if id in c1.pending {
        FirstResponseSettles(mp, c1, events[1..], id);
      } else {
        CallsSettleOnce(mp, c1, events[1..]);
        StaysSettled(mp, c1, events[1..], id);
      }
    }
  }

  /** The response a step hands to the router. */
  function HandedNow(mp: Msgpack, c: Client, e: Event): Option<Value> {
    if e.Message? then Handed(Receive(mp, c.manager, e.a), e.a) else None
  }

  predicate Names(v: Option<Value>, id: string) {
    v.Some? && ResponseId(v.value) == Some(id)
  }

  lemma HarmlessStep(mp: Msgpack, c: Client, e: Event, id: string)
    requires CallsInv(c) && Enabled(c, e) && Harmless(c, e, id) && id in c.pending
    ensures var c1, v := CallsStep(mp, c, e), HandedNow(mp, c, e);
            && c1.manager == (if e.Message? then Receive(mp, c.manager, e.a).manager else c.manager)
            && id in c1.registered
            && if Names(v, id) then id !in c1.pending && Settlement(id, EndingOf(v.value)) in c1.settled
               else id in c1.pending
  {
  }

  lemma FirstOfStep(mp: Msgpack, c: Client, events: seq<Event>, id: string)
    requires events != []
    ensures var v := HandedNow(mp, c, events[0]);
            var m1 := if events[0].Message? then Receive(mp, c.manager, events[0].a).manager else c.manager;
            FirstFor(HandedAll(mp, c.manager, Arrivals(events)), id)
            == if Names(v, id) then v else FirstFor(HandedAll(mp, m1, Arrivals(events[1..])), id)
  {
    var rest := Arrivals(events[1..]);
    if events[0].Message? {
      var r := Receive(mp, c.manager, events[0].a);
      var v := Handed(r, events[0].a);
      assert Arrivals(events) == [events[0].a] + rest && ([events[0].a] + rest)[1..] == rest;
      var later := HandedAll(mp, r.manager, rest);
      assert v.Some? ==> ([v.value] + later)[1..] == later;
      assert [] + later == later;
    } else {
      assert Arrivals(events) == rest;
    }
  }

  lemma {:induction false} StaysSettled(mp: Msgpack, c: Client, events: seq<Event>, id: string)
    requires CallsInv(c) && CanRun(mp, c, events) && id in c.registered && id !in c.pending
    ensures id !in After(mp, c, events).pending
    decreases events
  {
    if events != [] {
      StepKeepsInv(mp, c, events[0]);
      StepRegisters(mp, c, events[0]);
      StaysSettled(mp, CallsStep(mp, c, events[0]), events[1..], id);
    }
  }

  lemma StepRegisters(mp: Msgpack, c: Client, e: Event)
    requires CallsInv(c) && Enabled(c, e)
    ensures var c' := CallsStep(mp, c, e);
            c.registered <= c'.registered && (forall id :: id in c.registered && id !in c.pending ==> id !in c'.pending)
  {
    if e.Teardown? {
      CloseAllKeepsInv(c, e.order);
      CloseAllRegisters(c, e.order);
    }
  }

  lemma {:induction false} CloseAllRegisters(c: Client, order: seq<string>)
    ensures CloseAll(c, order).registered == c.registered
    decreases order
  {
    if order != [] {
      CloseAllRegisters(SettleIfPending(c, order[0], Closed), order[1..]);
    }
  }

  /** A message delivers no transfer but its own. */
  lemma ForeignEndsFail(mp: Msgpack, m: Manager, a: Arrival, id: string)
    requires Transfers.Inv(m) && m.lastSweep <= a.now <= a.later && !Concerns(a, id)
    ensures id in Receive(mp, m, a).ended ==> Receive(mp, m, a).ended[id].Failed?
  {
    var call := CallOf(mp, a);
    if call.Some? {
      OthersUntouched(mp, m, call.value, id);
    }
  }

  lemma ReceiveKeepsInv(mp: Msgpack, m: Manager, a: Arrival)
    requires Transfers.Inv(m) && m.lastSweep <= a.now <= a.later
    ensures Transfers.Inv(Receive(mp, m, a).manager) && Receive(mp, m, a).manager.lastSweep <= a.now
  {
    var other := if a.message.Plain? then "" else a.message.transferId + "x";
    OtherArrival(mp, m, a, other);
  }

  /** A transfer that delivers is handed to the router. */
  lemma {:induction false} DeliveredIsHanded(mp: Msgpack, m: Manager, arrivals: seq<Arrival>, id: string, v: Value)
    requires Transfers.Inv(m) && Monotone(arrivals, m.lastSweep)
    requires Delivered(MUX, v) in Outcomes(mp, m, arrivals, id)
    ensures v in HandedAll(mp, m, arrivals)
    decreases arrivals
  {
    var a := arrivals[0];
    var r := Receive(mp, m, a);
    ReceiveKeepsInv(mp, m, a);
    MonotoneSince(arrivals[1..], a.later, r.manager.lastSweep);
    if id in r.ended && r.ended[id] == Delivered(MUX, v) {
      if !Concerns(a, id) {
        ForeignEndsFail(mp, m, a, id);
      }
      assert Handed(r, a) == Some(v);
    } else {
      DeliveredIsHanded(mp, r.manager, arrivals[1..], id, v);
    }
  }

  lemma {:induction false} FirstForIn(vs: seq<Value>, id: string, v: Value)
    requires v in vs && ResponseId(v) == Some(id)
    ensures FirstFor(vs, id).Some? && FirstFor(vs, id).value in vs && ResponseId(FirstFor(vs, id).value) == Some(id)
  {
    if ResponseId(vs[0]) != Some(id) {
      FirstForIn(vs[1..], id, v);
    }
  }

  /**
   * A response too large for one message settles its call with its own result
   * or error: its header, then its chunks in any order, among any other calls,
   * responses and statuses that do not end this call.
   */
  lemma ChunkedResponseSettles(
      mp: Msgpack, c: Client, events: seq<Event>, id: string, v: Value, maxPayload: nat, transferId: string,
      before: seq<Arrival>, header: Arrival, after: seq<Arrival>)
    requires CallsInv(c) && CanRun(mp, c, events) && Undisturbed(mp, c, events, id) && id in c.pending
    requires ResponseId(v) == Some(id) && Arrivals(events) == before + [header] + after && header.handler == MUX
    requires Lawful(mp) && maxPayload > 0 && transferId != "" && (Extraction.Small(v) || LookAlikeFree(v))
    requires var sent := Publish(mp, v, maxPayload, transferId);
             && sent.Ok? && !FitsOne(mp, v, maxPayload) && header.message == sent.value[0]
             && (forall k :: 0 <= k < |after| && Concerns(after[k], transferId) ==> after[k].message in sent.value[1..])
             && (forall i :: 1 <= i < |sent.value| ==> Comes(after, sent.value[i]))
    requires forall k :: 0 <= k < |before| ==> !Concerns(before[k], transferId)
    requires Transfers.Inv(c.manager) && transferId !in c.manager.assemblers
    requires Monotone(before + [header] + after, c.manager.lastSweep) && NoIdleGap(after, transferId, header.later)
    requires forall h :: h in HandedAll(mp, c.manager, Arrivals(events)) && ResponseId(h) == Some(id) ==> h == v
    ensures var c' := After(mp, c, events);
            id !in c'.pending && exists ending :: Tells(v, ending) && Settlement(id, ending) in c'.settled
  {
    EndToEnd(mp, v, maxPayload, transferId, c.manager, before, header, after);
    assert Delivered(MUX, v) in Outcomes(mp, c.manager, Arrivals(events), transferId);
    DeliveredIsHanded(mp, c.manager, Arrivals(events), transferId, v);
    FirstForIn(HandedAll(mp, c.manager, Arrivals(events)), id, v);
    FirstResponseSettles(mp, c, events, id);
  }

  /**
   * Why the manager must stay: whatever of a transfer comes after it was
   * replaced is dropped, and a call registered since the teardown's loop that
   * waits for that transfer is not settled by it.
   */
  lemma NewManagerLosesTransfer(
      mp: Msgpack, c: Client, arrivals: seq<Arrival>, transferId: string, encoded: Bytes, maxPayload: nat)
    requires maxPayload > 0 && Monotone(arrivals, 0) && OnlyPieces(arrivals, transferId, encoded, maxPayload)
    ensures var c' := CallsStep(mp, c, NewManager);
            c'.pending == c.pending && Outcomes(mp, c'.manager, arrivals, transferId) == []
  {
    AfterEnd(mp, EMPTY, arrivals, transferId, encoded, maxPayload);
  }

  // ---------------------------------------------------------------- the client's tables, updated in place

  class CallTable {
    var pendingRequests: map<string, string>
    var timers: set<string>
    var statusHandlers: set<string>
    ghost var manager: Manager
    ghost var settled: seq<Settlement>
    ghost var registered: set<string>

    constructor ()
      ensures Abs() == Client(map[], {}, {}, EMPTY, [], {}) && Valid()
    {
      pendingRequests, timers, statusHandlers, manager, settled, registered := map[], {}, {}, EMPTY, [], {};
    }

    ghost function Abs(): Client
      reads this
    {
      Client(pendingRequests, timers, statusHandlers, manager, settled, registered)
    }

    ghost predicate Valid()
      reads this
    {
      CallsInv(Abs())
    }

    /** Enter a call with its timer armed. */
    method CallOnce(id: string, subject: string)
      requires Valid() && id !in registered
      modifies this
      ensures Valid() && forall mp :: Abs() == CallsStep(mp, old(Abs()), Register(id, subject))
    {
      pendingRequests := pendingRequests[id := subject];
      timers := timers + {id};
      registered := registered + {id};
    }

    /** Take a waiting call out of the table and tell it its end; false when it is not waiting. */
    method Settle(id: string, ending: Ending) returns (told: bool)
      requires Valid()
      modifies this
      ensures Valid() && Abs() == SettleIfPending(old(Abs()), id, ending)
      ensures told <==> id in old(pendingRequests)
    {
      SettleKeepsInv(Abs(), id, ending);
      told := id in pendingRequests;
      if told {
        pendingRequests := pendingRequests - {id};
        timers := timers - {id};
        settled := settled + [Settlement(id, ending)];
      }
    }

    method RouteMuxResponse(v: Value)
      requires Valid()
      modifies this
      ensures Valid() && Abs() == Route(old(Abs()), v)
      ensures ResponseId(v).Some? && ResponseId(v).value in old(pendingRequests) ==>
                exists ending :: Tells(v, ending) && Settles(old(Abs()), Abs(), ResponseId(v).value, ending)
    {
      EndingTells(v);
      var id := ResponseId(v);
      if id.Some? {
        var _ := Settle(id.value, EndingOf(v));
      }
    }

    /** A no-responders status: a status handler comes first, and fires once. */
    method HandleStatus(suffix: string)
      requires Valid()
      modifies this
      ensures Valid() && forall mp :: Abs() == CallsStep(mp, old(Abs()), Status(suffix))
    {
      if suffix in statusHandlers {
        statusHandlers := statusHandlers - {suffix};
        return;
      }
      var _ := Settle(suffix, NoResponder);
    }

    /** The loop of disconnect, suspend and abortClose over the waiting calls. */
    method RejectAll() returns (ghost order: seq<string>)
      requires Valid()
      modifies this
      ensures Valid() && pendingRequests == map[] && statusHandlers == {}
      ensures Enumerates(order, old(pendingRequests).Keys)
      ensures settled == old(settled) + Closings(order)
    {
      order := [];
      ghost var done: set<string> := {};
      var waiting := pendingRequests.Keys;
      while waiting != {}
        invariant Valid() && waiting == pendingRequests.Keys
        invariant done + waiting == old(pendingRequests).Keys && done !! waiting && Enumerates(order, done)
        invariant settled == old(settled) + Closings(order)
        decreases waiting
      {
        var id :| id in waiting;
        EnumeratesMore(order, done, id);
        ClosingsMore(order, id);
        var _ := Settle(id, Closed);
        waiting, done, order := waiting - {id}, done + {id}, order + [id];
      }
      statusHandlers := {};
    }
  }
}
