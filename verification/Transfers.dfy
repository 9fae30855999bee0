/**
 * The manager of concurrent chunk transfers, on values: four parallel maps and
 * a rate-limited stale sweep (python/camera_ui_rpc/chunking.py). Times are
 * milliseconds of a monotonic clock.
 */
module Transfers {
  import opened Wire
  import opened Values
  import opened Chunks
  import Codec

  const STALE_TRANSFER_TTL := 30000
  const SWEEP_INTERVAL := 1000

  /** A callback is known by the number its registrant gave it. */
  type Callback = nat

  /** What a transfer's owner is told at its end. */
  datatype Outcome = Delivered(callback: Callback, value: Value) | Failed(callback: Callback, error: Error)

  datatype Manager = Manager(
    assemblers: map<string, Assembly>,
    onComplete: map<string, Callback>,
    onError: map<string, Callback>,
    activity: map<string, int>,
    lastSweep: int)

  const EMPTY := Manager(map[], map[], map[], map[], 0)

  function Drop(m: Manager, ids: set<string>): Manager {
    m.(assemblers := m.assemblers - ids, onComplete := m.onComplete - ids,
       onError := m.onError - ids, activity := m.activity - ids)
  }

  function Stale(m: Manager, now: int): set<string> {
    set id | id in m.activity && m.activity[id] < now - STALE_TRANSFER_TTL
  }

  predicate SweepDue(m: Manager, now: int) {
    m.activity != map[] && now - m.lastSweep >= SWEEP_INTERVAL
  }

  function Sweep(m: Manager, now: int): (Manager, map<string, Outcome>) {
    if SweepDue(m, now) then
      var stale := Stale(m, now);
      (Drop(m.(lastSweep := now), stale),
       map id | id in stale && id in m.onError :: Failed(m.onError[id], TimedOut))
    else (m, map[])
  }

  /** Drop a transfer and tell its error callback. */
  function Fail(m: Manager, id: string, error: Error): (Manager, map<string, Outcome>) {
    (Drop(m, {id}), if id in m.onError then map[id := Failed(m.onError[id], error)] else map[])
  }

  /** What a caller announces: counts from the header, its callbacks, and what the allocator does. */
  datatype Announcement = Announcement(
    id: string, count: nat, totalSize: Option<nat>, chunkSize: Option<nat>,
    onComplete: Callback, onError: Callback,
    allocates: bool, leftover: Option<nat>)

  /** The assembler a transfer starts with; a pooled one brings its last chunk size along. */
  function Fresh(a: Announcement): Assembly {
    Expect(New(a.id).(chunkSize := a.leftover), a.count, a.totalSize, a.chunkSize, a.allocates)
  }

  function Start(m: Manager, a: Announcement, now: int, later: int): (Manager, map<string, Outcome>) {
    var (m, out) := Sweep(m, now);
    (m.(assemblers := m.assemblers[a.id := Fresh(a)],
        onComplete := m.onComplete[a.id := a.onComplete],
        onError := m.onError[a.id := a.onError],
        activity := m.activity[a.id := later]),
     out)
  }

  function Process(mp: Msgpack, m: Manager, chunk: Chunk, now: int, later: int): (Manager, map<string, Outcome>) {
    var (m, out) := Sweep(m, now);
    if chunk.id == "" || chunk.id !in m.assemblers then (m, out)
    else
      var (m, end) := Accept(mp, m.(activity := m.activity[chunk.id := later]), chunk);
      (m, out + end)
  }

  /** A chunk of a live transfer: give it to the assembler, then see whether the transfer is over. */
  function Accept(mp: Msgpack, m: Manager, chunk: Chunk): (Manager, map<string, Outcome>)
    requires chunk.id in m.assemblers
  {
    match Add(m.assemblers[chunk.id], chunk)
    case Err(e) => Fail(m, chunk.id, e)
    case Ok(a) => Settle(mp, m.(assemblers := m.assemblers[chunk.id := a]), chunk.id)
  }

  /** Complete the transfer or fail it, if all its chunks are there. */
  function Settle(mp: Msgpack, m: Manager, id: string): (Manager, map<string, Outcome>)
    requires id in m.assemblers
  {
    if !Complete(m.assemblers[id]) then (m, map[])
    else
      match Data(mp, m.assemblers[id])
      case Err(e) => Fail(m, id, e)
      case Ok(v) =>
        (Drop(m, {id}), if id in m.onComplete then map[id := Delivered(m.onComplete[id], v)] else map[])
  }

  /** The decoded payload of a complete transfer. */
  function Data(mp: Msgpack, a: Assembly): Result<Value>
    requires Complete(a)
  {
    match Contents(a)
    case Err(e) => Err(e)
    case Ok(bytes) => Codec.Decode(mp, bytes)
  }

  /** One call on the manager, with the clock readings at its sweep and after it. */
  datatype Call =
    | StartReceiving(a: Announcement, now: int, later: int)
    | ProcessChunk(chunk: Chunk, now: int, later: int)
    | Cancel(id: string)

  function Step(mp: Msgpack, m: Manager, call: Call): (Manager, map<string, Outcome>) {
    match call
    case StartReceiving(a, now, later) => Start(m, a, now, later)
    case ProcessChunk(chunk, now, later) => Process(mp, m, chunk, now, later)
    case Cancel(id) => Fail(m, id, Cancelled)
  }

  // ---------------------------------------------------------------- invariants

  /** The four maps have the same keys, each assembler's id is its key, nothing is older than the last sweep allowed. */
  predicate Inv(m: Manager) {
    && m.assemblers.Keys == m.onComplete.Keys == m.onError.Keys == m.activity.Keys
    && (forall id :: id in m.assemblers ==> m.assemblers[id].id == id)
    && (forall id :: id in m.activity ==> m.activity[id] >= m.lastSweep - STALE_TRANSFER_TTL)
  }

  /** The clock has not gone back. */
  predicate Timed(m: Manager, call: Call) {
    call.Cancel? || (m.lastSweep <= call.now <= call.later)
  }

  lemma SweepKeepsInv(m: Manager, now: int)
    requires Inv(m)
    ensures Inv(Sweep(m, now).0)
    ensures Sweep(m, now).1.Keys == if SweepDue(m, now) then Stale(m, now) else {}
    ensures forall id :: id in Sweep(m, now).0.assemblers ==>
              id in m.assemblers && Sweep(m, now).0.assemblers[id] == m.assemblers[id]
    ensures m.lastSweep <= now ==> Sweep(m, now).0.lastSweep <= now
  {
  }

  /** Either the transfer's assembler took the chunk, or the transfer is over and its owner is told. */
  predicate Advanced(m: Manager, id: string, m': Manager, out: map<string, Outcome>) {
    || (&& id in m'.assemblers && m'.assemblers[id].id == id
        && m' == m.(assemblers := m.assemblers[id := m'.assemblers[id]]) && out == map[])
    || (m' == Drop(m, {id}) && out.Keys == {id})
  }

  lemma AcceptAdvances(mp: Msgpack, m: Manager, chunk: Chunk)
    requires Inv(m) && chunk.id in m.assemblers
    ensures var (m', out) := Accept(mp, m, chunk); Advanced(m, chunk.id, m', out)
  {
    var id := chunk.id;
    var a := Add(m.assemblers[id], chunk).value;
    var stored := m.(assemblers := m.assemblers[id := a]);
    SettleAdvances(mp, stored, id);
    assert stored.assemblers - {id} == m.assemblers - {id};
  }

  lemma SettleAdvances(mp: Msgpack, m: Manager, id: string)
    requires id in m.assemblers && id in m.onComplete && id in m.onError
    ensures var (m', out) := Settle(mp, m, id);
            (m' == m && out == map[]) || (m' == Drop(m, {id}) && out.Keys == {id})
  {
  }

  lemma AdvanceKeepsInv(m: Manager, id: string, m': Manager, out: map<string, Outcome>)
    requires Inv(m) && id in m.assemblers && Advanced(m, id, m', out)
    ensures Inv(m')
    ensures One(id in out) + One(id in m'.assemblers) == 1
    ensures forall other :: other != id ==> other !in out && Same(m, m', other)
  {
  }

  /** The two managers hold the same of this transfer. */
  predicate Same(m: Manager, m': Manager, id: string) {
    && (id in m.assemblers <==> id in m'.assemblers)
    && (id in m.assemblers && id in m'.assemblers ==> m.assemblers[id] == m'.assemblers[id])
    && (id in m.onComplete && id in m'.onComplete ==> m.onComplete[id] == m'.onComplete[id])
    && (id in m.onError && id in m'.onError ==> m.onError[id] == m'.onError[id])
    && (id in m.activity && id in m'.activity ==> m.activity[id] == m'.activity[id])
  }

  /** A chunk for a live transfer, after the sweep. */
  lemma ProcessAdvances(mp: Msgpack, m: Manager, chunk: Chunk, now: int, later: int)
    requires Inv(m) && m.lastSweep <= now <= later
    requires chunk.id != "" && chunk.id in Sweep(m, now).0.assemblers
    ensures var m1 := Sweep(m, now).0;
            var m2 := m1.(activity := m1.activity[chunk.id := later]);
            var (m', end) := Accept(mp, m2, chunk);
            && Inv(m2) && Inv(m') && Advanced(m2, chunk.id, m', end)
            && Process(mp, m, chunk, now, later) == (m', Sweep(m, now).1 + end)
  {
    SweepKeepsInv(m, now);
    var m1 := Sweep(m, now).0;
    var m2 := m1.(activity := m1.activity[chunk.id := later]);
    AcceptAdvances(mp, m2, chunk);
    var (m', end) := Accept(mp, m2, chunk);
    AdvanceKeepsInv(m2, chunk.id, m', end);
  }

  lemma StepKeepsInv(mp: Msgpack, m: Manager, call: Call)
    requires Inv(m) && Timed(m, call)
    ensures Inv(Step(mp, m, call).0)
  {
    if call.StartReceiving? {
      SweepKeepsInv(m, call.now);
    } else if call.ProcessChunk? {
      SweepKeepsInv(m, call.now);
      if call.chunk.id != "" && call.chunk.id in Sweep(m, call.now).0.assemblers {
        ProcessAdvances(mp, m, call.chunk, call.now, call.later);
      }
    }
  }

  /** The sweep never drops a transfer active in the last 30 seconds, and says so to exactly those it drops. */
  lemma SweepDropsOnlyStale(m: Manager, now: int, id: string)
    requires Inv(m) && id in m.assemblers
    ensures id !in Sweep(m, now).0.assemblers <==> id in Sweep(m, now).1
    ensures id !in Sweep(m, now).0.assemblers ==> now - m.activity[id] > STALE_TRANSFER_TTL
    ensures id in Sweep(m, now).1 ==> Sweep(m, now).1[id] == Failed(m.onError[id], TimedOut)
    ensures id in Sweep(m, now).0.assemblers ==> Same(m, Sweep(m, now).0, id)
  {
    SweepKeepsInv(m, now);
  }

  /**
   * The sweep runs at most once a second: within a second of one that ran, the
   * next does nothing; a second after, none that has idled past the limit stays.
   */
  lemma SweepIsRateLimited(m: Manager, now: int, later: int)
    requires Inv(m) && now <= later
    ensures now - m.lastSweep < 1000 ==> Sweep(m, now) == (m, map[])
    ensures now - m.lastSweep >= 1000 ==>
              forall id :: id in Sweep(m, now).0.activity ==> now - Sweep(m, now).0.activity[id] <= 30000
    ensures SweepDue(m, now) && later - now < 1000 ==> Sweep(Sweep(m, now).0, later) == (Sweep(m, now).0, map[])
  {
  }

  lemma SweepLeavesRecent(m: Manager, now: int, id: string)
    requires Inv(m) && id in Sweep(m, now).0.activity
    ensures now - Sweep(m, now).0.activity[id] <= STALE_TRANSFER_TTL + SWEEP_INTERVAL
  {
  }

  /** After any call at time t no surviving transfer has been idle for more than TTL + interval. */
  lemma StalenessBound(mp: Msgpack, m: Manager, call: Call, id: string)
    requires Inv(m) && !call.Cancel? && Timed(m, call)
    requires id in Step(mp, m, call).0.activity
    ensures call.now - Step(mp, m, call).0.activity[id] <= STALE_TRANSFER_TTL + SWEEP_INTERVAL
  {
    var m1 := Sweep(m, call.now).0;
    if id in m1.activity {
      SweepLeavesRecent(m, call.now, id);
    }
    if call.ProcessChunk? && call.chunk.id != "" && call.chunk.id in m1.assemblers {
      ProcessAdvances(mp, m, call.chunk, call.now, call.later);
    }
  }

  /** One transfer's call changes no other transfer, except that the sweep may drop it. */
  lemma OthersUntouched(mp: Msgpack, m: Manager, call: Call, other: string)
    requires Inv(m) && Timed(m, call) && other != CallId(call)
    ensures var (m', out) := Step(mp, m, call);
            if other in out then
              && other in m.assemblers && other !in m'.assemblers
              && !call.Cancel? && call.now - m.activity[other] > STALE_TRANSFER_TTL
              && out[other] == Failed(m.onError[other], TimedOut)
            else Same(m, m', other)
  {
    if !call.Cancel? {
      SweepTouches(m, call.now, other);
      SweepKeepsInv(m, call.now);
      if call.ProcessChunk? && call.chunk.id != "" && call.chunk.id in Sweep(m, call.now).0.assemblers {
        ProcessTouches(mp, m, call.chunk, call.now, call.later, other);
      }
    }
  }

  lemma SweepTouches(m: Manager, now: int, id: string)
    requires Inv(m)
    ensures var (m', out) := Sweep(m, now);
            if id in out then
              && id in m.assemblers && id !in m'.assemblers && now - m.activity[id] > STALE_TRANSFER_TTL
              && out[id] == Failed(m.onError[id], TimedOut)
            else Same(m, m', id)
  {
    SweepKeepsInv(m, now);
    if id in m.assemblers {
      SweepDropsOnlyStale(m, now, id);
    }
  }

  lemma ProcessTouches(mp: Msgpack, m: Manager, chunk: Chunk, now: int, later: int, other: string)
    requires Inv(m) && m.lastSweep <= now <= later && other != chunk.id
    requires chunk.id != "" && chunk.id in Sweep(m, now).0.assemblers
    ensures var (m', out) := Process(mp, m, chunk, now, later);
            && (other in out <==> other in Sweep(m, now).1)
            && (other in out ==> out[other] == Sweep(m, now).1[other])
            && Same(Sweep(m, now).0, m', other)
  {
    ProcessAdvances(mp, m, chunk, now, later);
    var m1 := Sweep(m, now).0;
    var m2 := m1.(activity := m1.activity[chunk.id := later]);
    var (m', end) := Accept(mp, m2, chunk);
    AdvanceKeepsInv(m2, chunk.id, m', end);
  }

  function CallId(call: Call): string {
    match call
    case StartReceiving(a, _, _) => a.id
    case ProcessChunk(chunk, _, _) => chunk.id
    case Cancel(id) => id
  }

  // ---------------------------------------------------------------- conservation over runs

  /** A start that finds a live transfer of the same id replaces it without telling anyone. */
  predicate Overwrites(m: Manager, call: Call, id: string) {
    call.StartReceiving? && call.a.id == id && id in Sweep(m, call.now).0.assemblers
  }

  lemma SweepConserves(m: Manager, now: int, id: string)
    requires Inv(m)
    ensures var (m', out) := Sweep(m, now); One(id in m.assemblers) == One(id in out) + One(id in m'.assemblers)
  {
    SweepKeepsInv(m, now);
    if id in m.assemblers {
      SweepDropsOnlyStale(m, now, id);
    }
  }

  lemma ProcessConserves(mp: Msgpack, m: Manager, chunk: Chunk, now: int, later: int)
    requires Inv(m) && m.lastSweep <= now <= later
    ensures var (m', out) := Process(mp, m, chunk, now, later);
            One(chunk.id in m.assemblers) == One(chunk.id in out) + One(chunk.id in m'.assemblers)
  {
    SweepConserves(m, now, chunk.id);
    if chunk.id != "" && chunk.id in Sweep(m, now).0.assemblers {
      ProcessAdvances(mp, m, chunk, now, later);
    }
  }

  /** The transfer is gone, and its owner was told just this. */
  predicate EndsWith(m': Manager, out: map<string, Outcome>, id: string, end: Outcome) {
    && id !in m'.assemblers && id !in m'.onComplete && id !in m'.onError && id !in m'.activity
    && id in out && out[id] == end
  }

  /** A cancel ends a live transfer and tells its error callback so; an unknown one does nothing. */
  lemma CancelEnds(mp: Msgpack, m: Manager, id: string)
    requires Inv(m)
    ensures var (m', out) := Step(mp, m, Cancel(id));
            if id in m.assemblers then EndsWith(m', out, id, Failed(m.onError[id], Cancelled)) && out.Keys == {id}
            else m' == m && out == map[]
  {
    if id !in m.assemblers {
      assert m.assemblers - {id} == m.assemblers && m.onComplete - {id} == m.onComplete;
      assert m.onError - {id} == m.onError && m.activity - {id} == m.activity;
    }
  }

  /**
   * A chunk of a live transfer, exactly: while pieces are missing it waits; with
   * the last one its bytes are decoded, and it ends with the value or the error.
   */
  lemma ChunkEndsIff(mp: Msgpack, m: Manager, chunk: Chunk)
    requires Inv(m) && chunk.id in m.assemblers
    ensures var (m', out) := Accept(mp, m, chunk); var id := chunk.id;
            var a := Add(m.assemblers[id], chunk);
            && a.Ok?
            && if a.value.total != Some(|a.value.received|) then
                 m' == m.(assemblers := m.assemblers[id := a.value]) && out == map[]
               else
                 match Contents(a.value)
                 case Err(e) => EndsWith(m', out, id, Failed(m.onError[id], e))
                 case Ok(bytes) =>
                   match Codec.Decode(mp, bytes)
                   case Err(e) => EndsWith(m', out, id, Failed(m.onError[id], e))
                   case Ok(v) => EndsWith(m', out, id, Delivered(m.onComplete[id], v))
  {
  }

  /** Every transfer that was live or started is told its end, replaced, or still live: never two of these. */
  lemma StepConserves(mp: Msgpack, m: Manager, call: Call, id: string)
    requires Inv(m) && Timed(m, call)
    ensures var (m', out) := Step(mp, m, call);
            One(id in m.assemblers) + One(call.StartReceiving? && call.a.id == id)
              == One(id in out) + One(Overwrites(m, call, id)) + One(id in m'.assemblers)
  {
    if id != CallId(call) {
      OthersUntouched(mp, m, call, id);
    } else if !call.Cancel? {
      SweepConserves(m, call.now, id);
      SweepKeepsInv(m, call.now);
      if call.ProcessChunk? {
        ProcessConserves(mp, m, call.chunk, call.now, call.later);
      }
    }
  }

  /** The calls of a run that start, end or replace a transfer of this id. */
  datatype Tally = Tally(started: nat, ended: nat, replaced: nat)

  function Run(mp: Msgpack, m: Manager, calls: seq<Call>): Manager
    decreases calls
  {
    if calls == [] then m else Run(mp, Step(mp, m, calls[0]).0, calls[1..])
  }

  predicate TimedRun(mp: Msgpack, m: Manager, calls: seq<Call>)
    decreases calls
  {
    calls == [] || (Timed(m, calls[0]) && TimedRun(mp, Step(mp, m, calls[0]).0, calls[1..]))
  }

  function Count(mp: Msgpack, m: Manager, calls: seq<Call>, id: string): Tally
    decreases calls
  {
    if calls == [] then Tally(0, 0, 0)
    else
      var (m', out) := Step(mp, m, calls[0]);
      var rest := Count(mp, m', calls[1..], id);
      Tally(rest.started + One(calls[0].StartReceiving? && calls[0].a.id == id),
            rest.ended + One(id in out),
            rest.replaced + One(Overwrites(m, calls[0], id)))
  }

  /**
   * Over any run: the invariant holds, and started transfers are the disjoint
   * union of those told their end once, those replaced, and the live one.
   */
  lemma {:induction false} RunConserves(mp: Msgpack, m: Manager, calls: seq<Call>, id: string)
    requires Inv(m) && TimedRun(mp, m, calls)
    ensures Inv(Run(mp, m, calls))
    ensures var t := Count(mp, m, calls, id);
            One(id in m.assemblers) + t.started == t.ended + t.replaced + One(id in Run(mp, m, calls).assemblers)
    decreases calls
  {
    if calls != [] {
      StepKeepsInv(mp, m, calls[0]);
      StepConserves(mp, m, calls[0], id);
      RunConserves(mp, Step(mp, m, calls[0]).0, calls[1..], id);
    }
  }
}
