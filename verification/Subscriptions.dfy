/**
 * Subscription entries that outlive the connection: the client's table, the
 * muxed reply inbox in it, and the subscriptions alive on the transport
 * (node/src/client.ts; the end-of-task watcher is python/camera_ui_rpc/client.py's).
 */
module Subscriptions {
  import opened Wire

  /** A subscription object: the entry it was made for, and its number. */
  datatype Handle = Handle(key: nat, n: nat)

  /** An entry object; `sub` is the handle of its last subscription, perhaps a closed one. */
  datatype Entry = Entry(pattern: string, raw: bool, sub: Option<Handle>)

  /** No connection object, an open one, or one that has closed. */
  datatype Transport = Absent | Open | Shut

  /** A teardown closes the entries' subscriptions, then tells the connection to close and waits. */
  datatype Stage = Detaching | Detached | Closing

  datatype Teardown = None | Suspending(stage: Stage) | Disconnecting(stage: Stage)

  /**
   * Every entry object made, by the key it was made under; the keys in the
   * table; those whose unsubscribe closure a caller holds; the mux entry; the
   * connection, and the subscriptions alive with the connection they are on.
   * `stranded`: an open connection was forgotten, and the entries'
   * subscriptions have not been closed since.
   */
  datatype State = State(
    objects: map<nat, Entry>, entries: set<nat>, closures: set<nat>, lastKey: nat, mux: Option<nat>,
    nc: Transport, epoch: nat, live: map<Handle, nat>, lastSub: nat, teardown: Teardown, stranded: bool)

  const START := State(map[], {}, {}, 0, Option.None, Absent, 0, map[], 0, Teardown.None, false)

  /**
   * `SecondDial`: of two dials under way, the first overtaken by a suspend() that
   * forgot its promise, the second completes over the open connection of the
   * first and replaces it.
   */
  datatype Event =
    | Subscribe(pattern: string)
    | Unsubscribe(key: nat)
    | EnsureMux
    | BeginSuspend
    | Detach(key: nat)
    | SuspendEntries
    | Disconnect
    | CloseTransport
    | FinishTeardown
    | AbortClose
    | TransportLost
    | Connect
    | SecondDial
    | TaskEnded(key: nat, sub: Handle)

  predicate Enabled(s: State, e: Event) {
    match e
    case Subscribe(_) => !s.nc.Absent?
    case Unsubscribe(k) => k in s.closures
    case EnsureMux => !s.nc.Absent?
    case BeginSuspend => s.teardown.None?
    case Detach(k) => s.teardown == Suspending(Detaching) && k in s.entries
    case SuspendEntries => s.teardown == Suspending(Detaching)
    case Disconnect => s.teardown.None?
    case CloseTransport => At(s, Detached)
    case FinishTeardown => At(s, Closing)
    case TransportLost => s.nc.Open?
    case SecondDial => s.nc.Open? && !At(s, Detached)
    case TaskEnded(k, h) => k in s.objects && h !in s.live
    case _ => true
  }

  /** A teardown is under way and has come to this stage. */
  predicate At(s: State, stage: Stage) {
    !s.teardown.None? && s.teardown.stage == stage
  }

  const MUX_PATTERN := "rpc.reply.>"

  function Step(s: State, e: Event): State
    requires Enabled(s, e)
  {
    match e
    case Subscribe(pattern) => SubscribeEntry(s, pattern)
    case Unsubscribe(k) =>
      if k in s.objects then Close(s, k).(entries := s.entries - {k}) else s
    case EnsureMux =>
      var s := RegisterMux(s);
      Revive(s, s.mux.value)
    case BeginSuspend => s.(teardown := Suspending(Detaching))
    case Detach(k) => if k in s.objects then Close(s, k) else s
    case SuspendEntries => DetachAll(s).(teardown := Suspending(Detached))
    case Disconnect => DetachAll(s).(entries := {}, mux := Option.None, teardown := Disconnecting(Detached))
    case CloseTransport => CloseCurrent(s).(teardown := s.teardown.(stage := Closing))
    case FinishTeardown => s.(nc := Absent, teardown := Teardown.None, stranded := s.stranded || s.nc.Open?)
    case AbortClose => CloseCurrent(s).(nc := Absent)
    case TransportLost => CloseCurrent(s)
    case Connect => if s.nc.Open? then s else ConnectAnew(s)
    case SecondDial => ConnectAnew(s.(stranded := true))
    case TaskEnded(k, h) =>
      if s.teardown.Suspending? || s.objects[k].sub != Some(h) then s
      else s.(objects := s.objects[k := s.objects[k].(sub := Option.None)], entries := s.entries - {k},
              mux := if s.mux == Some(k) then Option.None else s.mux)
  }

  /** The entry's subscription exists and has not closed. */
  predicate Alive(s: State, k: nat)
    requires k in s.objects
  {
    s.objects[k].sub.Some? && s.objects[k].sub.value in s.live
  }

  /** Enter a new entry under a new key. */
  function Register(s: State, pattern: string, raw: bool): State {
    var k := s.lastKey + 1;
    s.(objects := s.objects[k := Entry(pattern, raw, Option.None)], entries := s.entries + {k}, lastKey := k)
  }

  /** The entry is registered first: when the subscription then fails it stays, and no closure is returned. */
  function SubscribeEntry(s: State, pattern: string): State {
    var s := Register(s, pattern, false);
    if s.nc.Open? then NatsSubscribe(s, s.lastKey).(closures := s.closures + {s.lastKey}) else s
  }

  /** Subscribe on the current connection; on a closed one this throws. */
  function NatsSubscribe(s: State, k: nat): State
    requires k in s.objects
  {
    if s.nc.Open? then
      var h := Handle(k, s.lastSub + 1);
      s.(objects := s.objects[k := s.objects[k].(sub := Some(h))], live := s.live[h := s.epoch], lastSub := h.n)
    else s
  }

  /** Subscribe an entry whose subscription is missing or closed. */
  function Revive(s: State, k: nat): State {
    if k in s.objects && !Alive(s, k) then NatsSubscribe(s, k) else s
  }

  function RegisterMux(s: State): (r: State)
    ensures r.mux.Some?
  {
    if s.mux.Some? then s else Register(s, MUX_PATTERN, true).(mux := Some(s.lastKey + 1))
  }

  /** Close an entry's subscription, if it has one. */
  function Close(s: State, k: nat): State
    requires k in s.objects
  {
    if s.objects[k].sub.Some? then s.(live := s.live - {s.objects[k].sub.value}) else s
  }

  /** Close every entry's subscription and forget its handle. */
  function DetachAll(s: State): State {
    DetachKeys(s, s.entries).(stranded := false)
  }

  /** The same for the entries with some keys. */
  function DetachKeys(s: State, keys: set<nat>): State {
    s.(live := s.live - (set k | k in keys && k in s.objects && s.objects[k].sub.Some? :: s.objects[k].sub.value),
       objects := map k | k in s.objects :: if k in keys then s.objects[k].(sub := Option.None) else s.objects[k])
  }

  /** The current connection closes, and with it its subscriptions. */
  function CloseCurrent(s: State): State {
    if s.nc.Open? then s.(nc := Shut, live := map h | h in s.live && s.live[h] != s.epoch :: s.live[h]) else s
  }

  /** A new connection: register the mux and restore every entry without a living subscription. */
  function ConnectAnew(s: State): State {
    Restore(RegisterMux(Opened(s)), 1)
  }

  function Opened(s: State): State {
    s.(nc := Open, epoch := s.epoch + 1)
  }

  /** The restore loop, in the order the entries were made. */
  function Restore(s: State, k: nat): State
    decreases s.lastKey + 1 - k
  {
    if k > s.lastKey then s else Restore(if k in s.entries then Revive(s, k) else s, k + 1)
  }

  // ---------------------------------------------------------------- invariant

  ghost predicate Inv(s: State) {
    Core(s) && (s.nc.Open? && (s.teardown.None? || At(s, Closing)) ==> AllAlive(s) && s.mux.Some?)
  }

  ghost predicate Core(s: State) {
    KeysInv(s) && LiveInv(s) && HandlesInv(s) && OrphansInv(s)
  }

  ghost predicate AllAlive(s: State)
    requires KeysInv(s)
  {
    forall k :: k in s.entries ==> Alive(s, k)
  }

  /** Keys count up and name at most one object; the mux entry is the only raw one. */
  ghost predicate KeysInv(s: State) {
    && (forall k :: k in s.objects <==> 1 <= k <= s.lastKey)
    && s.entries <= s.objects.Keys && s.closures <= s.objects.Keys
    && (forall k :: k in s.closures ==> !s.objects[k].raw)
    && (s.mux.Some? ==> s.mux.value in s.entries)
    && (forall k :: k in s.entries ==> (s.objects[k].raw <==> s.mux == Some(k)))
    && (s.mux.Some? ==> s.objects[s.mux.value].pattern == "rpc.reply.>")
  }

  /** Every living subscription is the current one of an entry in the table. */
  ghost predicate LiveInv(s: State)
    requires KeysInv(s)
  {
    forall h :: h in s.live ==> s.live[h] <= s.epoch && h.key in s.entries && s.objects[h.key].sub == Some(h)
  }

  /** An object's handle was made for it, and new handles have higher numbers. */
  ghost predicate HandlesInv(s: State)
    requires KeysInv(s)
  {
    forall k :: k in s.objects && s.objects[k].sub.Some? ==>
      s.objects[k].sub.value.key == k && s.objects[k].sub.value.n <= s.lastSub
  }

  /** Unless a connection was forgotten all that lives is on the open one; if one was, the mux still lives on it. */
  ghost predicate OrphansInv(s: State)
    requires KeysInv(s)
  {
    && (!s.stranded ==> forall h :: h in s.live ==> s.nc.Open? && s.live[h] == s.epoch)
    && (s.stranded && !At(s, Detaching) ==> s.mux.Some? && Forgotten(s, s.mux.value))
  }

  /** The entry lives on a connection the client no longer has. */
  predicate Forgotten(s: State, k: nat)
    requires k in s.objects
  {
    Alive(s, k) && (s.nc.Open? ==> s.live[s.objects[k].sub.value] < s.epoch)
  }

  lemma StepKeepsInv(s: State, e: Event)
    requires Inv(s) && Enabled(s, e)
    ensures Inv(Step(s, e))
  {
    match e
    case Subscribe(pattern) => SubscribeKeepsInv(s, pattern);
    case Unsubscribe(k) => UnsubscribeKeepsInv(s, k);
    case EnsureMux => EnsureMuxKeepsInv(s);
    case BeginSuspend =>
    case Detach(k) => CloseKeepsCore(s, k);
    case SuspendEntries => SuspendKeepsInv(s);
    case Disconnect => DisconnectKeepsInv(s);
    case CloseTransport => CloseKeepsInv(s, e);
    case FinishTeardown => FinishKeepsInv(s);
    case AbortClose => CloseKeepsInv(s, e);
    case TransportLost => CloseKeepsInv(s, e);
    case Connect => ConnectKeepsInv(s);
    case SecondDial => SecondDialKeepsInv(s);
    case TaskEnded(k, h) => TaskEndedKeepsInv(s, k, h);
  }

  lemma SuspendKeepsInv(s: State)
    requires Inv(s) && Enabled(s, SuspendEntries)
    ensures Inv(Step(s, SuspendEntries))
  {
    DetachAllKeepsCore(s);
  }

  lemma CloseKeepsInv(s: State, e: Event)
    requires Inv(s) && Enabled(s, e) && (e.CloseTransport? || e.AbortClose? || e.TransportLost?)
    ensures Inv(Step(s, e))
  {
    CloseCurrentKeepsCore(s);
  }

  lemma FinishKeepsInv(s: State)
    requires Inv(s) && At(s, Closing)
    ensures Inv(Step(s, FinishTeardown))
  {
  }

  lemma RegisterKeepsCore(s: State, pattern: string)
    requires Core(s)
    ensures Core(Register(s, pattern, false)) && !Alive(Register(s, pattern, false), s.lastKey + 1)
    ensures AllAlive(s) ==> forall k :: k in s.entries ==> Alive(Register(s, pattern, false), k)
  {
  }

  lemma RegisterMuxKeepsCore(s: State)
    requires Core(s)
    ensures var r := RegisterMux(s);
            && Core(r) && r.mux.value in r.objects && s.entries <= r.entries <= s.entries + {r.mux.value}
            && (AllAlive(s) ==> forall k :: k in s.entries ==> Alive(r, k))
  {
  }

  lemma NatsSubscribeKeepsCore(s: State, k: nat)
    requires Core(s) && k in s.entries && !Alive(s, k)
    ensures var r := NatsSubscribe(s, k);
            && Core(r) && r.entries == s.entries
            && (s.nc.Open? ==> Alive(r, k))
            && forall j :: j in s.objects && j != k ==> (Alive(r, j) <==> Alive(s, j))
  {
  }

  lemma ReviveKeepsCore(s: State, k: nat)
    requires Core(s) && k in s.entries
    ensures var r := Revive(s, k);
            && Core(r) && SameTable(s, r)
            && (s.nc.Open? ==> Alive(r, k))
            && forall j :: j in s.objects && j != k ==> (Alive(r, j) <==> Alive(s, j))
  {
    if !Alive(s, k) {
      NatsSubscribeKeepsCore(s, k);
    }
  }

  predicate SameTable(s: State, r: State) {
    && r.entries == s.entries && r.objects.Keys == s.objects.Keys && r.lastKey == s.lastKey
    && r.nc == s.nc && r.teardown == s.teardown && r.stranded == s.stranded && r.mux == s.mux
  }

  lemma SubscribeKeepsInv(s: State, pattern: string)
    requires Inv(s) && !s.nc.Absent?
    ensures Inv(SubscribeEntry(s, pattern))
  {
    RegisterKeepsCore(s, pattern);
    if s.nc.Open? {
      var r := Register(s, pattern, false);
      NatsSubscribeKeepsCore(r, r.lastKey);
      ClosureKeepsInv(NatsSubscribe(r, r.lastKey), r.lastKey);
    }
  }

  lemma ClosureKeepsInv(s: State, k: nat)
    requires Inv(s) && k in s.objects && !s.objects[k].raw
    ensures Inv(s.(closures := s.closures + {k}))
  {
  }

  lemma EnsureMuxKeepsInv(s: State)
    requires Inv(s) && !s.nc.Absent?
    ensures Inv(Step(s, EnsureMux))
  {
    RegisterMuxKeepsCore(s);
    RegisterMuxExtends(s);
    ReviveKeepsCore(RegisterMux(s), RegisterMux(s).mux.value);
  }

  lemma CloseKeepsCore(s: State, k: nat)
    requires Core(s) && k in s.objects && (At(s, Detaching) || s.mux != Some(k))
    ensures Core(Close(s, k)) && !Alive(Close(s, k), k)
    ensures forall j :: j in s.objects && j != k ==> (Alive(Close(s, k), j) <==> Alive(s, j))
  {
  }

  lemma UnsubscribeKeepsInv(s: State, k: nat)
    requires Inv(s) && k in s.closures
    ensures Inv(Step(s, Unsubscribe(k)))
  {
    CloseKeepsCore(s, k);
    var closed := Close(s, k);
    assert forall h :: h in closed.live ==> h.key != k;
  }

  lemma DetachAllKeepsCore(s: State)
    requires Core(s)
    ensures Core(DetachAll(s)) && DetachAll(s).live == map[] && !DetachAll(s).stranded
  {
    var r := DetachAll(s);
    forall h | h in s.live
      ensures h !in r.live
    {
      assert h.key in s.entries && s.objects[h.key].sub == Some(h);
    }
  }

  lemma DisconnectKeepsInv(s: State)
    requires Inv(s) && s.teardown.None?
    ensures Inv(Step(s, Disconnect))
  {
    DetachAllKeepsCore(s);
  }

  lemma CloseCurrentKeepsCore(s: State)
    requires Core(s)
    ensures Core(CloseCurrent(s)) && !CloseCurrent(s).nc.Open?
  {
  }

  lemma ConnectKeepsInv(s: State)
    requires Inv(s)
    ensures Inv(Step(s, Connect))
  {
    if !s.nc.Open? {
      ConnectRevives(s);
    }
  }

  lemma SecondDialKeepsInv(s: State)
    requires Inv(s) && Enabled(s, SecondDial)
    ensures Inv(Step(s, SecondDial))
  {
    SecondDialRevives(s);
  }

  /** connect() keeps every entry object and closure, and leaves every entry with a living subscription. */
  lemma ConnectRevives(s: State)
    requires Core(s) && !s.nc.Open?
    ensures Revived(s, ConnectAnew(s)) && ConnectAnew(s).stranded == s.stranded
  {
    OpenKeepsCore(s);
    OpenedRevives(s);
  }

  ghost predicate Revived(s: State, r: State) {
    && Core(r) && AllAlive(r) && r.mux.Some? && r.nc.Open? && r.teardown == s.teardown
    && s.entries <= r.entries && Extends(s, r)
  }

  lemma OpenedRevives(s: State)
    requires KeysInv(s) && Core(Opened(s))
    ensures Revived(s, ConnectAnew(s)) && ConnectAnew(s).stranded == s.stranded
  {
    var registered := RegisterMux(Opened(s));
    RegisterMuxKeepsCore(Opened(s));
    RegisterMuxExtends(Opened(s));
    RestoreRevives(registered, 1);
    RestoreExtends(registered, 1);
    ExtendsTwice(Opened(s), registered, Restore(registered, 1));
  }

  /** So does a second dial; what was alive stays on the connection it replaces. */
  lemma SecondDialRevives(s: State)
    requires Inv(s) && Enabled(s, SecondDial)
    ensures Revived(s, Step(s, SecondDial)) && Step(s, SecondDial).stranded
  {
    ReplacedKeepsCore(s);
    OpenedRevives(s.(stranded := true));
  }

  lemma ReplacedKeepsCore(s: State)
    requires Inv(s) && Enabled(s, SecondDial)
    ensures Core(Opened(s.(stranded := true)))
  {
  }

  lemma OpenKeepsCore(s: State)
    requires Core(s) && !s.nc.Open?
    ensures Core(Opened(s))
  {
  }

  lemma RegisterMuxExtends(s: State)
    requires KeysInv(s)
    ensures var r := RegisterMux(s);
            Extends(s, r) && r.nc == s.nc && r.teardown == s.teardown && r.stranded == s.stranded
  {
  }

  /** Entry objects and closures are kept; keys go on from where they were. */
  ghost predicate Extends(s: State, r: State) {
    r.lastKey >= s.lastKey && r.closures == s.closures && forall k :: k in s.objects ==> SameObject(s, r, k)
  }

  /** The object of a key keeps its identity. */
  predicate SameObject(s: State, r: State, k: nat)
    requires k in s.objects
  {
    k in r.objects && r.objects[k].pattern == s.objects[k].pattern && r.objects[k].raw == s.objects[k].raw
  }

  lemma ExtendsTwice(s: State, r: State, t: State)
    requires Extends(s, r) && Extends(r, t)
    ensures Extends(s, t)
  {
    forall k | k in s.objects
      ensures SameObject(s, t, k)
    {
      assert SameObject(s, r, k) && SameObject(r, t, k);
    }
  }

  /** The restore loop leaves every entry with a living subscription. */
  lemma {:induction false} RestoreRevives(s: State, k: nat)
    requires Core(s) && s.nc.Open? && forall j :: j in s.entries && j < k ==> Alive(s, j)
    ensures var r := Restore(s, k);
            && Core(r) && AllAlive(r) && r.nc == s.nc && r.teardown == s.teardown && r.stranded == s.stranded
            && r.entries == s.entries && r.mux == s.mux
    decreases s.lastKey + 1 - k
  {
    if k <= s.lastKey {
      if k in s.entries {
        ReviveKeepsCore(s, k);
        RestoreRevives(Revive(s, k), k + 1);
      } else {
        RestoreRevives(s, k + 1);
      }
    }
  }

  lemma {:induction false} RestoreExtends(s: State, k: nat)
    ensures Extends(s, Restore(s, k))
    decreases s.lastKey + 1 - k
  {
    if k <= s.lastKey {
      var next := if k in s.entries then Revive(s, k) else s;
      RestoreExtends(next, k + 1);
      ExtendsTwice(s, next, Restore(next, k + 1));
    }
  }

  lemma TaskEndedKeepsInv(s: State, k: nat, h: Handle)
    requires Inv(s) && k in s.objects && h !in s.live
    ensures Inv(Step(s, TaskEnded(k, h)))
  {
  }

  // ---------------------------------------------------------------- runs

  predicate CanRun(s: State, events: seq<Event>)
    decreases events
  {
    events == [] || (Enabled(s, events[0]) && CanRun(Step(s, events[0]), events[1..]))
  }

  function After(s: State, events: seq<Event>): State
    requires CanRun(s, events)
    decreases events
  {
    if events == [] then s else After(Step(s, events[0]), events[1..])
  }

  lemma {:induction false} RunKeepsInv(s: State, events: seq<Event>)
    requires Inv(s) && CanRun(s, events)
    ensures Inv(After(s, events))
    decreases events
  {
    if events != [] {
      StepKeepsInv(s, events[0]);
      RunKeepsInv(Step(s, events[0]), events[1..]);
    }
  }

  /** The entry has exactly one living subscription. */
  ghost predicate OneLive(s: State, k: nat)
    requires k in s.objects
  {
    Alive(s, k) && forall h :: h in s.live && h.key == k ==> s.objects[k].sub == Some(h)
  }

  /**
   * Over any run: connected, every entry has exactly one living subscription;
   * not connected, none lives if and only if no open connection was forgotten
   * since the entries were last detached; the mux entry is the only one of its
   * kind.
   */
  lemma Lifecycle(events: seq<Event>)
    requires CanRun(START, events)
    ensures var s := After(START, events);
            && s.entries <= s.objects.Keys
            && (s.nc.Open? && s.teardown.None? ==> forall k :: k in s.entries ==> OneLive(s, k))
            && (forall h :: h in s.live ==> h.key in s.entries)
            && (!s.nc.Open? && !At(s, Detaching) ==> (s.live == map[] <==> !s.stranded))
            && (forall k :: k in s.entries ==> (s.objects[k].raw <==> s.mux == Some(k)))
  {
    RunKeepsInv(START, events);
    MuxIsStranded(After(START, events));
  }

  lemma MuxIsStranded(s: State)
    requires Inv(s)
    ensures s.stranded && !At(s, Detaching) ==> s.live != map[]
  {
  }

  /**
   * A teardown ends without a living subscription if and only if no connection
   * is open when it ends, and none was forgotten since it detached the entries.
   */
  lemma TeardownLeavesNoneIff(s: State)
    requires Inv(s) && At(s, Closing)
    ensures Step(s, FinishTeardown).live == map[] <==> !s.nc.Open? && !s.stranded
    ensures Step(s, FinishTeardown).stranded <==> s.nc.Open? || s.stranded
  {
    if s.nc.Open? || s.stranded {
      assert Alive(s, s.mux.value);
    }
  }

  /** Nothing closes a connection or ends the teardown. */
  predicate StaysUp(events: seq<Event>) {
    forall i :: 0 <= i < |events| ==>
      !events[i].FinishTeardown? && !events[i].TransportLost? && !events[i].AbortClose?
  }

  /**
   * The guard a caller can keep: once a teardown has told the connection to
   * close, it leaves subscriptions alive if and only if a connect() completes
   * before it ends.
   */
  lemma ConnectStrandsIff(s: State, events: seq<Event>)
    requires Inv(s) && At(s, Closing) && !s.nc.Open? && !s.stranded
    requires CanRun(s, events) && StaysUp(events)
    ensures var r := After(s, events);
            && Enabled(r, FinishTeardown)
            && (Step(r, FinishTeardown).live == map[] <==> Connect !in events)
  {
    OpenIffConnected(s, events);
    RunKeepsInv(s, events);
    TeardownLeavesNoneIff(After(s, events));
  }

  lemma {:induction false} OpenIffConnected(s: State, events: seq<Event>)
    requires Inv(s) && At(s, Closing) && (s.stranded ==> s.nc.Open?) && CanRun(s, events) && StaysUp(events)
    ensures var r := After(s, events);
            At(r, Closing) && (r.stranded ==> r.nc.Open?) && (r.nc.Open? <==> s.nc.Open? || Connect in events)
    decreases events
  {
    if events != [] {
      var r := Step(s, events[0]);
      StepKeepsInv(s, events[0]);
      StepWhileClosing(s, events[0]);
      assert forall i :: 0 <= i < |events[1..]| ==> events[1..][i] == events[i + 1];
      OpenIffConnected(r, events[1..]);
    }
  }

  lemma StepWhileClosing(s: State, e: Event)
    requires Inv(s) && At(s, Closing) && (s.stranded ==> s.nc.Open?) && Enabled(s, e)
    requires !e.FinishTeardown? && !e.TransportLost? && !e.AbortClose?
    ensures var r := Step(s, e);
            r.teardown == s.teardown && (r.stranded ==> r.nc.Open?) && (r.nc.Open? <==> s.nc.Open? || e.Connect?)
  {
    if e.Connect? && !s.nc.Open? {
      ConnectRevives(s);
    } else if e.SecondDial? {
      SecondDialRevives(s);
    }
  }

  /** A closure whose entry is gone does nothing: keys are not reused, and no handle is shared. */
  lemma StaleClosureDoesNothing(s: State, k: nat)
    requires Inv(s) && k in s.closures && k !in s.entries
    ensures Step(s, Unsubscribe(k)) == s
  {
    var r := Step(s, Unsubscribe(k));
    assert s.entries - {k} == s.entries;
    if s.objects[k].sub.Some? {
      var h := s.objects[k].sub.value;
      assert h !in s.live;
      assert s.live - {h} == s.live;
    }
  }

  /** Unsubscribing removes its own entry and subscription, and nothing else. */
  lemma UnsubscribeRemovesOwn(s: State, k: nat)
    requires Inv(s) && k in s.closures
    ensures var r := Step(s, Unsubscribe(k));
            && r.entries == s.entries - {k} && !Alive(r, k)
            && (forall j :: j in s.entries && j != k ==> (Alive(r, j) <==> Alive(s, j)))
            && (forall h :: h in r.live <==> h in s.live && h.key != k)
  {
    CloseKeepsCore(s, k);
  }

  /** An entry made is an entry known: its key never comes back for another. */
  lemma {:induction false} KeysNeverReused(s: State, events: seq<Event>, k: nat)
    requires Inv(s) && CanRun(s, events) && k in s.objects
    ensures var r := After(s, events);
            k in r.objects && r.objects[k].pattern == s.objects[k].pattern && r.objects[k].raw == s.objects[k].raw
            && r.lastKey >= s.lastKey
    decreases events
  {
    if events != [] {
      StepKeepsInv(s, events[0]);
      StepKeepsObjects(s, events[0], k);
      KeysNeverReused(Step(s, events[0]), events[1..], k);
    }
  }

  lemma StepKeepsObjects(s: State, e: Event, k: nat)
    requires Inv(s) && Enabled(s, e) && k in s.objects
    ensures SameObject(s, Step(s, e), k) && Step(s, e).lastKey >= s.lastKey
  {
    if e.Connect? && !s.nc.Open? {
      ConnectRevives(s);
    } else if e.SecondDial? {
      SecondDialRevives(s);
    }
  }

  /**
   * An entry leaves the table only by its closure, by a disconnect, or by its own
   * dead subscription outside a suspend.
   */
  lemma OnlyTheseDrop(s: State, e: Event, k: nat)
    requires Inv(s) && Enabled(s, e) && k in s.entries && k !in Step(s, e).entries
    ensures e == Unsubscribe(k) || e == Disconnect
         || (e.TaskEnded? && e.key == k && !Alive(s, k) && !s.teardown.Suspending?)
  {
    if e.Connect? && !s.nc.Open? {
      ConnectRevives(s);
    } else if e.SecondDial? {
      SecondDialRevives(s);
    }
  }

  /** A late end-of-task event takes nothing from a connected client: what was restored stays. */
  lemma LateTaskEndDropsNothing(s: State, k: nat, h: Handle)
    requires Inv(s) && Enabled(s, TaskEnded(k, h))
    ensures forall j :: j in s.entries && Alive(s, j) ==> j in Step(s, TaskEnded(k, h)).entries
    ensures s.nc.Open? && s.teardown.None? && k in s.entries ==> Step(s, TaskEnded(k, h)) == s
  {
  }

  // ---------------------------------------------------------------- what the operations are for

  /** A subscribe() on an open connection enters its pattern under a new key, alive, and hands out its closure. */
  lemma SubscribeLives(s: State, pattern: string)
    requires Inv(s) && s.nc.Open?
    ensures var r, k := Step(s, Subscribe(pattern)), s.lastKey + 1;
            && r.entries == s.entries + {k} && k in r.objects && r.objects[k].pattern == pattern && !r.objects[k].raw
            && Alive(r, k) && r.live[r.objects[k].sub.value] == r.epoch && k in r.closures && k !in s.entries
  {
  }

  /** The mux is there once asked for, and alive on an open connection. */
  lemma EnsureMuxLives(s: State)
    requires Inv(s) && !s.nc.Absent?
    ensures var r := Step(s, EnsureMux);
            && r.mux.Some? && r.mux.value in r.entries && r.mux.value in r.objects
            && r.objects[r.mux.value].pattern == "rpc.reply.>" && (s.nc.Open? ==> Alive(r, r.mux.value))
            && (s.mux.Some? ==> r.mux == s.mux && r.entries == s.entries)
  {
  }

  /** disconnect() closes every subscription and forgets every entry and the mux. */
  lemma DisconnectForgets(s: State)
    requires Inv(s) && s.teardown.None?
    ensures var r := Step(s, Disconnect);
            r.live == map[] && r.entries == {} && r.mux == Option.None && r.closures == s.closures
  {
    DetachAllKeepsCore(s);
  }

  /** suspend() closes them too, but keeps the entries and the mux. */
  lemma SuspendKeeps(s: State)
    requires Inv(s) && Enabled(s, SuspendEntries)
    ensures var r := Step(s, SuspendEntries);
            r.live == map[] && r.entries == s.entries && r.mux == s.mux && r.objects.Keys == s.objects.Keys
  {
    DetachAllKeepsCore(s);
  }

  /** suspend() closes one entry after another; the others live on until their turn. */
  lemma DetachCloses(s: State, k: nat)
    requires Inv(s) && Enabled(s, Detach(k))
    ensures var r := Step(s, Detach(k));
            && !Alive(r, k) && r.entries == s.entries && r.mux == s.mux
            && forall h :: h in r.live <==> h in s.live && h.key != k
  {
    CloseKeepsCore(s, k);
  }

  /** An aborted or lost connection takes its subscriptions with it; the entries stay for the next connect(). */
  lemma ClosingKeepsEntries(s: State)
    requires Inv(s) && s.nc.Open?
    ensures var aborted, lost := Step(s, AbortClose), Step(s, TransportLost);
            && aborted.nc.Absent? && lost.nc.Shut? && aborted.live == lost.live
            && aborted.entries == lost.entries == s.entries && aborted.objects == lost.objects == s.objects
            && forall h :: h in lost.live <==> h in s.live && s.live[h] < s.epoch
  {
  }

  /** The rest of a teardown: the connection is closed and forgotten. */
  function Closed(s: State): State
    requires At(s, Detached)
  {
    Step(Step(s, CloseTransport), FinishTeardown)
  }

  lemma ClosedKeepsTable(s: State)
    requires Inv(s) && At(s, Detached)
    ensures var r := Closed(s);
            && Inv(r) && r.nc.Absent? && r.teardown.None? && r.entries == s.entries && r.mux == s.mux
            && r.objects == s.objects && r.lastKey == s.lastKey && (s.live == map[] ==> r.live == map[])
  {
    StepKeepsInv(s, CloseTransport);
    StepKeepsInv(Step(s, CloseTransport), FinishTeardown);
  }

  /** After disconnect() and a new connect() the mux is the only entry, under a key above every earlier one. */
  lemma DisconnectThenConnect(s: State)
    requires Inv(s) && s.teardown.None?
    ensures var closed, k := Closed(Step(s, Disconnect)), s.lastKey + 1;
            var r := Step(closed, Connect);
            && closed.nc.Absent? && closed.live == map[]
            && r.entries == {k} && r.mux == Some(k) && k in r.objects && r.objects[k].raw && Alive(r, k)
  {
    DisconnectForgets(s);
    StepKeepsInv(s, Disconnect);
    ClosedKeepsTable(Step(s, Disconnect));
    Reconnects(Closed(Step(s, Disconnect)));
  }

  /** After suspend() and a new connect() every entry is there and alive, under its key and pattern. */
  lemma SuspendThenConnect(s: State)
    requires Inv(s) && s.teardown.None?
    ensures var closed := Closed(Step(Step(s, BeginSuspend), SuspendEntries));
            var r := Step(closed, Connect);
            && closed.nc.Absent? && closed.live == map[]
            && r.mux.Some? && r.entries == s.entries + {r.mux.value} && (s.mux.Some? ==> r.mux == s.mux)
            && forall k :: k in s.entries ==> k in r.objects && SameObject(s, r, k) && Alive(r, k)
  {
    var suspended := Step(Step(s, BeginSuspend), SuspendEntries);
    StepKeepsInv(s, BeginSuspend);
    StepKeepsInv(Step(s, BeginSuspend), SuspendEntries);
    SuspendKeeps(Step(s, BeginSuspend));
    ClosedKeepsTable(suspended);
    var closed := Closed(suspended);
    Reconnects(closed);
    forall k | k in s.entries
      ensures k in Step(closed, Connect).objects && SameObject(s, Step(closed, Connect), k)
    {
      assert SameObject(s, closed, k) && SameObject(closed, Step(closed, Connect), k);
    }
  }

  lemma Reconnects(s: State)
    requires Inv(s) && s.nc.Absent?
    ensures var r := Step(s, Connect);
            && KeysInv(r) && AllAlive(r) && Extends(s, r) && r.mux.Some? && r.entries == s.entries + {r.mux.value}
            && r.mux.value == if s.mux.Some? then s.mux.value else s.lastKey + 1
  {
    ConnectRevives(s);
    ConnectTable(s);
  }

  /** connect() adds nothing to the table but a missing mux. */
  lemma ConnectTable(s: State)
    requires Core(s) && !s.nc.Open?
    ensures var r := Step(s, Connect);
            if s.mux.Some? then r.entries == s.entries && r.mux == s.mux
            else r.entries == s.entries + {s.lastKey + 1} && r.mux == Some(s.lastKey + 1)
  {
    OpenKeepsCore(s);
    RegisterMuxKeepsCore(Opened(s));
    RestoreRevives(RegisterMux(Opened(s)), 1);
  }

  /** An entry that has left the table never comes back. */
  lemma {:induction false} DroppedStaysOut(s: State, events: seq<Event>, k: nat)
    requires Inv(s) && CanRun(s, events) && k in s.objects && k !in s.entries
    ensures k !in After(s, events).entries
    decreases events
  {
    if events != [] {
      StepKeepsInv(s, events[0]);
      StepKeepsObjects(s, events[0], k);
      StepAddsNew(s, events[0], k);
      DroppedStaysOut(Step(s, events[0]), events[1..], k);
    }
  }

  lemma StepAddsNew(s: State, e: Event, k: nat)
    requires Inv(s) && Enabled(s, e) && k in s.objects && k !in s.entries
    ensures k !in Step(s, e).entries
  {
    match e
    case Connect =>
      if !s.nc.Open? {
        ConnectTable(s);
      }
    case SecondDial =>
      var replaced := Opened(s.(stranded := true));
      ReplacedKeepsCore(s);
      RegisterMuxKeepsCore(replaced);
      RestoreRevives(RegisterMux(replaced), 1);
    case _ =>
  }

  /** A subscription that ends by itself outside a suspend takes its entry out of the table, the mux included. */
  lemma TaskEndDrops(s: State, k: nat, h: Handle)
    requires Inv(s) && Enabled(s, TaskEnded(k, h)) && k in s.entries && s.objects[k].sub == Some(h)
    requires !s.teardown.Suspending?
    ensures var r := Step(s, TaskEnded(k, h));
            && r.entries == s.entries - {k} && (r.mux.Some? <==> s.mux.Some? && s.mux != Some(k)) && r.live == s.live
            && k in r.objects && r.objects[k].sub.None?
  {
  }

  // ---------------------------------------------------------------- handles

  /** The entry's handle is what it was, forgotten, or newer than every earlier one. */
  predicate HandleMoves(s: State, r: State, k: nat)
    requires k in s.objects
  {
    && r.lastSub >= s.lastSub && k in r.objects
    && (r.objects[k].sub == s.objects[k].sub || r.objects[k].sub.None? || r.objects[k].sub.value.n > s.lastSub)
  }

  lemma ReviveMoves(s: State, j: nat, k: nat)
    requires k in s.objects
    ensures HandleMoves(s, Revive(s, j), k)
  {
  }

  lemma {:induction false} RestoreMoves(s: State, j: nat, k: nat)
    requires k in s.objects
    ensures HandleMoves(s, Restore(s, j), k)
    decreases s.lastKey + 1 - j
  {
    if j <= s.lastKey {
      var next := if j in s.entries then Revive(s, j) else s;
      ReviveMoves(s, j, k);
      RestoreMoves(next, j + 1, k);
    }
  }

  lemma StepMoves(s: State, e: Event, k: nat)
    requires Inv(s) && Enabled(s, e) && k in s.objects
    ensures HandleMoves(s, Step(s, e), k)
  {
    match e
    case Connect =>
      if !s.nc.Open? {
        RestoreMoves(RegisterMux(Opened(s)), 1, k);
      }
    case SecondDial => RestoreMoves(RegisterMux(Opened(s.(stranded := true))), 1, k);
    case EnsureMux => ReviveMoves(RegisterMux(s), RegisterMux(s).mux.value, k);
    case _ =>
  }

  /**
   * A subscription once replaced is never an entry's own again, so its late end
   * of task can never take the entry out of the table.
   */
  lemma {:induction false} ReplacedNeverReturns(s: State, events: seq<Event>, k: nat, h: Handle)
    requires Inv(s) && CanRun(s, events) && k in s.objects && h.n <= s.lastSub && s.objects[k].sub != Some(h)
    ensures var r := After(s, events);
            && k in r.objects && r.objects[k].sub != Some(h)
            && (h !in r.live ==> Step(r, TaskEnded(k, h)) == r)
    decreases events
  {
    if events != [] {
      StepKeepsInv(s, events[0]);
      StepMoves(s, events[0], k);
      ReplacedNeverReturns(Step(s, events[0]), events[1..], k, h);
    }
  }

  /** A subscription made anew has a handle of its own. */
  lemma NewHandleIsNew(s: State, k: nat)
    requires Core(s) && s.nc.Open? && k in s.objects
    ensures var h := NatsSubscribe(s, k).objects[k].sub;
            && h.Some? && h.value.key == k && h.value.n == s.lastSub + 1 && h.value !in s.live
            && forall j :: j in s.objects ==> s.objects[j].sub != h
  {
  }

  // ---------------------------------------------------------------- where the promises stop

  /**
   * A subscribe() that fails on a closed connection leaves an entry no closure can
   * remove; connect() brings it to life.
   */
  lemma FailedSubscribeIsRestored(s: State, pattern: string)
    requires Inv(s) && s.nc.Shut? && s.teardown.None?
    ensures var k := s.lastKey + 1;
            var r := Step(Step(s, Subscribe(pattern)), Connect);
            k !in r.closures && k in r.entries && k in r.objects && r.objects[k].pattern == pattern && Alive(r, k)
  {
    StepKeepsInv(s, Subscribe(pattern));
    var failed := Step(s, Subscribe(pattern));
    ConnectRevives(failed);
    assert SameObject(failed, Step(failed, Connect), s.lastKey + 1);
  }

  /** Every connect() that completes while a teardown waits is forgotten with its subscriptions alive. */
  lemma ConnectDuringTeardownIsStranded(s: State)
    requires Core(s) && !s.nc.Open? && At(s, Closing)
    ensures Enabled(Step(s, Connect), FinishTeardown)
    ensures var r := Step(Step(s, Connect), FinishTeardown);
            r.nc.Absent? && r.teardown.None? && r.live != map[] && r.stranded
  {
    ConnectRevives(s);
    assert Alive(ConnectAnew(s), ConnectAnew(s).mux.value);
  }

  /**
   * A second dial leaves every subscription on the connection it replaces:
   * they go on when the new connection is lost, and connect() makes no others.
   */
  lemma SecondDialStrands(s: State)
    requires Inv(s) && s.nc.Open? && s.teardown.None?
    ensures var r := Step(s, SecondDial);
            && r.live == s.live && r.objects == s.objects && r.nc.Open? && r.epoch == s.epoch + 1
            && Step(r, TransportLost).live == r.live && r.live != map[]
  {
    NothingToRestore(Opened(s.(stranded := true)), 1);
    assert Alive(s, s.mux.value);
  }

  /** Where every entry is alive the restore loop does nothing. */
  lemma {:induction false} NothingToRestore(s: State, k: nat)
    requires KeysInv(s) && AllAlive(s)
    ensures Restore(s, k) == s
    decreases s.lastKey + 1 - k
  {
    if k <= s.lastKey {
      NothingToRestore(s, k + 1);
    }
  }
}
