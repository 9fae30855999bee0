/**
 * Publishing a value and receiving it: one message, or a header and chunks
 * (python/camera_ui_rpc/client.py).
 */
module Delivery {
  import opened Wire
  import opened Values
  import opened Chunks
  import opened Transfers
  import Codec
  import Extraction

  /** A message on a subject: plain, or marked as a transfer's header or chunk. */
  datatype Message =
    | Plain(data: Bytes)
    | Header(transferId: string, data: Bytes)
    | Piece(transferId: string, index: nat, data: Bytes)

  const TYPE_KEY := "type"
  const ID_KEY := "transferId"
  const CHUNKS_KEY := "totalChunks"
  const SIZE_KEY := "totalSize"
  const CHUNK_SIZE_KEY := "chunkSize"

  function HeaderValue(transferId: string, count: nat, size: nat, chunkSize: nat): Value {
    Map([TYPE_KEY, ID_KEY, CHUNKS_KEY, SIZE_KEY, CHUNK_SIZE_KEY],
        [Str("chunked"), Str(transferId), Int(count), Int(size), Int(chunkSize)])
  }

  /** Dictionary lookup; the first entry of a key. */
  function Lookup(keys: seq<string>, items: seq<Value>, key: string): Option<Value> {
    if keys == [] || items == [] then None
    else if keys[0] == key then Some(items[0])
    else Lookup(keys[1..], items[1..], key)
  }

  function Field(v: Value, key: string): Option<Value> {
    if v.Map? then Lookup(v.keys, v.items, key) else None
  }

  function NatOf(v: Option<Value>): Option<nat> {
    if v.Some? && v.value.Int? && v.value.n >= 0 then Some(v.value.n) else None
  }

  function Publish(mp: Msgpack, v: Value, maxPayload: nat, transferId: string): Result<seq<Message>>
    requires maxPayload > 0
  {
    match Codec.Encode(mp, v)
    case Err(e) => Err(e)
    case Ok(encoded) =>
      if |encoded| <= maxPayload then Ok([Plain(encoded)])
      else
        var count := ChunkCount(|encoded|, maxPayload);
        match mp.encode(HeaderValue(transferId, count, |encoded|, maxPayload))
        case None => Err(Unencodable)
        case Some(header) => Ok([Header(transferId, header)] + Pieces(transferId, encoded, maxPayload, count))
  }

  function PieceOf(transferId: string, encoded: Bytes, maxPayload: nat, i: nat): Message {
    Piece(transferId, i, ChunkBytes(encoded, maxPayload, i))
  }

  function Pieces(transferId: string, encoded: Bytes, maxPayload: nat, count: nat): (r: seq<Message>)
    ensures |r| == count
    ensures forall i :: 0 <= i < count ==> r[i] == PieceOf(transferId, encoded, maxPayload, i)
  {
    seq(count, i requires 0 <= i < count => PieceOf(transferId, encoded, maxPayload, i))
  }

  /** The value's encoding fits one message. */
  predicate FitsOne(mp: Msgpack, v: Value, maxPayload: nat) {
    Codec.Encode(mp, v).Ok? && |Codec.Encode(mp, v).value| <= maxPayload
  }

  /** What is published, exactly: one plain message if and only if the encoding fits, and no payload above the limit. */
  lemma PublishFits(mp: Msgpack, v: Value, maxPayload: nat, id: string)
    requires maxPayload > 0
    ensures var sent, encoded := Publish(mp, v, maxPayload, id), Codec.Encode(mp, v);
            && (encoded.Err? ==> sent == Err(encoded.error))
            && (FitsOne(mp, v, maxPayload) ==> sent == Ok([Plain(encoded.value)]))
            && (sent.Ok? ==> forall m :: m in sent.value && (m.Plain? || m.Piece?) ==> |m.data| <= maxPayload)
            && (sent.Ok? ==> |sent.value| > 0 && (sent.value[0].Plain? <==> FitsOne(mp, v, maxPayload)))
  {
    var encoded := Codec.Encode(mp, v);
    if encoded.Ok? && !FitsOne(mp, v, maxPayload) && Publish(mp, v, maxPayload, id).Ok? {
      var count := ChunkCount(|encoded.value|, maxPayload);
      forall m | m in Pieces(id, encoded.value, maxPayload, count)
        ensures |m.data| <= maxPayload
      {
        PieceFits(id, encoded.value, maxPayload, count, m);
      }
    }
  }

  lemma PieceFits(id: string, encoded: Bytes, maxPayload: nat, count: nat, m: Message)
    requires maxPayload > 0 && m in Pieces(id, encoded, maxPayload, count)
    ensures |m.data| <= maxPayload
  {
  }

  /** When publishing succeeds, exactly: the value encodes and, if it does not fit one message, its header does. */
  lemma PublishesIff(mp: Msgpack, v: Value, maxPayload: nat, id: string)
    requires maxPayload > 0
    ensures var encoded := Codec.Encode(mp, v);
            Publish(mp, v, maxPayload, id).Ok? <==>
              encoded.Ok? && (|encoded.value| <= maxPayload ||
                mp.encode(HeaderValue(id, ChunkCount(|encoded.value|, maxPayload), |encoded.value|, maxPayload)).Some?)
  {
  }

  method PublishMessage(mp: Msgpack, v: Value, maxPayload: nat, transferId: string) returns (sent: Result<seq<Message>>)
    requires maxPayload > 0
    ensures sent == Publish(mp, v, maxPayload, transferId)
    ensures sent.Ok? ==> forall m :: m in sent.value && !m.Header? ==> |m.data| <= maxPayload
    ensures sent.Ok? ==> (sent.value[0].Plain? <==> FitsOne(mp, v, maxPayload))
  {
    PublishFits(mp, v, maxPayload, transferId);
    var encoded := Codec.EncodeMessage(mp, v);
    if encoded.Err? {
      return Err(encoded.error);
    }
    if |encoded.value| <= maxPayload {
      return Ok([Plain(encoded.value)]);
    }
    var totalChunks := (|encoded.value| + maxPayload - 1) / maxPayload;
    var header := mp.encode(HeaderValue(transferId, totalChunks, |encoded.value|, maxPayload));
    if header.None? {
      return Err(Unencodable);
    }
    var messages := [Header(transferId, header.value)];
    var chunks := CreateChunks(encoded.value, transferId, maxPayload);
    for i := 0 to |chunks|
      invariant |messages| == i + 1 && messages[0] == Header(transferId, header.value)
      invariant forall k :: 0 <= k < i ==> messages[k + 1] == PieceOf(transferId, encoded.value, maxPayload, k)
    {
      messages := messages + [Piece(transferId, i, chunks[i].data)];
    }
    assert messages == [messages[0]] + Pieces(transferId, encoded.value, maxPayload, totalChunks);
    return Ok(messages);
  }

  // ---------------------------------------------------------------- the receiver

  /**
   * A message on one of the client's subscriptions: with that subscription's
   * handler, clock readings and what the allocator does. One manager serves
   * all subscriptions of a client.
   */
  datatype Arrival = Arrival(
    message: Message, handler: Callback, now: int, later: int, allocates: bool, leftover: Option<nat>)

  /** What the handler of a subscription makes of a header; a malformed one is only logged. */
  function Announce(mp: Msgpack, a: Arrival): Option<Announcement>
    requires a.message.Header?
  {
    var id := a.message.transferId;
    match mp.decode(a.message.data)
    case None => None
    case Some(header) =>
      var count := NatOf(Field(header, CHUNKS_KEY));
      if id == "" || Field(header, ID_KEY) != Some(Str(id)) || count.None? then None
      else Some(Announcement(id, count.value, NatOf(Field(header, SIZE_KEY)), NatOf(Field(header, CHUNK_SIZE_KEY)),
                             a.handler, a.handler, a.allocates, a.leftover))
  }

  /** The manager afterwards, the transfers ended, and the value a plain message hands to the handler. */
  datatype Received = Received(manager: Manager, ended: map<string, Outcome>, direct: Option<Value>)

  function Receive(mp: Msgpack, m: Manager, a: Arrival): Received {
    match a.message
    case Plain(data) =>
      var v := Codec.Decode(mp, data);
      Received(m, map[], if v.Ok? then Some(v.value) else None)
    case Header(id, _) =>
      var announced := Announce(mp, a);
      if announced.None? then Received(m, map[], None)
      else
        var (m', out) := Start(m, announced.value, a.now, a.later);
        Received(m', out, None)
    case Piece(id, index, data) =>
      if id == "" then Received(m, map[], None)
      else
        var (m', out) := Process(mp, m, Chunk(id, index, data, false), a.now, a.later);
        Received(m', out, None)
  }

  /** A header must name its own transfer and a chunk count, and a chunk a transfer; any other is ignored. */
  lemma MalformedIsIgnored(mp: Msgpack, m: Manager, a: Arrival)
    requires match a.message
             case Plain(_) => false
             case Piece(id, _, _) => id == ""
             case Header(id, data) =>
               id == "" || mp.decode(data).None? ||
               var header := mp.decode(data).value;
               || Field(header, "transferId") != Some(Str(id))
               || !(Field(header, "totalChunks").Some? && Field(header, "totalChunks").value.Int? &&
                    Field(header, "totalChunks").value.n >= 0)
    ensures Receive(mp, m, a) == Received(m, map[], None)
  {
  }

  /** A plain message concerns no transfer: it is decoded, or dropped. */
  lemma PlainIsDecoded(mp: Msgpack, m: Manager, a: Arrival)
    requires a.message.Plain?
    ensures var r := Receive(mp, m, a);
            && r.manager == m && r.ended == map[]
            && forall v :: r.direct == Some(v) <==> Codec.Decode(mp, a.message.data) == Ok(v)
  {
  }

  /** The outcomes a run of arrivals reports for one transfer, in order. */
  function Outcomes(mp: Msgpack, m: Manager, arrivals: seq<Arrival>, id: string): seq<Outcome>
    decreases arrivals
  {
    if arrivals == [] then []
    else
      var r := Receive(mp, m, arrivals[0]);
      (if id in r.ended then [r.ended[id]] else []) + Outcomes(mp, r.manager, arrivals[1..], id)
  }

  function ReceiveAll(mp: Msgpack, m: Manager, arrivals: seq<Arrival>): Manager
    decreases arrivals
  {
    if arrivals == [] then m else ReceiveAll(mp, Receive(mp, m, arrivals[0]).manager, arrivals[1..])
  }

  // ---------------------------------------------------------------- schedules

  predicate Concerns(a: Arrival, id: string) {
    !a.message.Plain? && a.message.transferId == id
  }

  predicate Comes(arrivals: seq<Arrival>, message: Message) {
    exists k :: 0 <= k < |arrivals| && arrivals[k].message == message
  }

  predicate IsPiece(a: Arrival, id: string, index: nat) {
    a.message.Piece? && a.message.transferId == id && a.message.index == index
  }

  /** Clock readings never go back. */
  predicate Monotone(arrivals: seq<Arrival>, since: int)
    decreases arrivals
  {
    arrivals == [] || (since <= arrivals[0].now <= arrivals[0].later && Monotone(arrivals[1..], arrivals[0].later))
  }

  /** No two consecutive messages of the transfer are more than the TTL apart. */
  predicate NoIdleGap(arrivals: seq<Arrival>, id: string, last: int)
    decreases arrivals
  {
    arrivals == [] ||
    if Concerns(arrivals[0], id) then
      arrivals[0].now - last <= STALE_TRANSFER_TTL && NoIdleGap(arrivals[1..], id, arrivals[0].later)
    else NoIdleGap(arrivals[1..], id, last)
  }

  /** Every message of the transfer is one of its chunks. */
  predicate OnlyPieces(arrivals: seq<Arrival>, id: string, encoded: Bytes, maxPayload: nat)
    requires maxPayload > 0
  {
    forall k :: 0 <= k < |arrivals| && Concerns(arrivals[k], id) ==>
      arrivals[k].message.Piece? &&
      arrivals[k].message.index < ChunkCount(|encoded|, maxPayload) &&
      arrivals[k].message == PieceOf(id, encoded, maxPayload, arrivals[k].message.index)
  }

  /** The indices of the transfer's chunks among the arrivals. */
  function Arrived(arrivals: seq<Arrival>, id: string): set<nat>
    decreases arrivals
  {
    if arrivals == [] then {}
    else
      (if Concerns(arrivals[0], id) && arrivals[0].message.Piece? then {arrivals[0].message.index} else {})
      + Arrived(arrivals[1..], id)
  }

  /** While a chunk is still to come, the transfer has not been idle too long. */
  lemma {:induction false} NotYetStale(arrivals: seq<Arrival>, id: string, last: int, since: int)
    requires Monotone(arrivals, since) && NoIdleGap(arrivals, id, last) && Arrived(arrivals, id) != {}
    ensures arrivals != [] && arrivals[0].now - last <= STALE_TRANSFER_TTL
    decreases arrivals
  {
    if !Concerns(arrivals[0], id) {
      NotYetStale(arrivals[1..], id, last, arrivals[0].later);
    }
  }

  // ---------------------------------------------------------------- one transfer among others

  /** Messages of other transfers leave this one alone, unless the sweep drops it. */
  lemma OtherArrival(mp: Msgpack, m: Manager, a: Arrival, id: string)
    requires Inv(m) && m.lastSweep <= a.now <= a.later && !Concerns(a, id)
    ensures var r := Receive(mp, m, a);
            && Inv(r.manager)
            && r.manager.lastSweep <= a.now
            && if id in m.assemblers && a.now - m.activity[id] > STALE_TRANSFER_TTL then true
               else id !in r.ended && Same(m, r.manager, id)
  {
    var call := CallOf(mp, a);
    if call.Some? {
      StepKeepsInv(mp, m, call.value);
      SweepKeepsInv(m, a.now);
      LastSweep(mp, m, call.value);
      OthersUntouched(mp, m, call.value, id);
    }
  }

  /** The manager call a message makes. */
  function CallOf(mp: Msgpack, a: Arrival): Option<Call> {
    match a.message
    case Plain(_) => None
    case Header(_, _) =>
      var announced := Announce(mp, a);
      if announced.None? then None else Some(StartReceiving(announced.value, a.now, a.later))
    case Piece(id, index, data) =>
      if id == "" then None else Some(ProcessChunk(Chunk(id, index, data, false), a.now, a.later))
  }

  lemma LastSweep(mp: Msgpack, m: Manager, call: Call)
    requires Inv(m) && Timed(m, call) && !call.Cancel?
    ensures Step(mp, m, call).0.lastSweep <= call.now
  {
    SweepKeepsInv(m, call.now);
    if call.ProcessChunk? && call.chunk.id != "" && call.chunk.id in Sweep(m, call.now).0.assemblers {
      ProcessAdvances(mp, m, call.chunk, call.now, call.later);
    }
  }

  /** The transfer is live, has received exactly `got`, and was last active at `last`. */
  predicate Receiving(
      m: Manager, id: string, encoded: Bytes, maxPayload: nat, handler: Callback, got: set<nat>, last: int)
    requires maxPayload > 0
  {
    && Inv(m) && id in m.assemblers
    && Progress(m.assemblers[id], encoded, maxPayload, got)
    && m.onComplete[id] == handler && m.activity[id] == last
    && got != IndexSet(ChunkCount(|encoded|, maxPayload))
  }

  /** The next chunk of a live transfer: progress, or delivery when it was the last one missing. */
  lemma OwnPiece(
      mp: Msgpack, m: Manager, a: Arrival, handler: Callback,
      id: string, encoded: Bytes, maxPayload: nat, got: set<nat>, last: int, v: Value)
    requires maxPayload > 0 && id != "" && Receiving(m, id, encoded, maxPayload, handler, got, last)
    requires m.lastSweep <= a.now <= a.later && a.now - last <= STALE_TRANSFER_TTL
    requires a.message.Piece? && a.message.index < ChunkCount(|encoded|, maxPayload)
    requires a.message == PieceOf(id, encoded, maxPayload, a.message.index)
    requires Codec.Decode(mp, encoded) == Ok(v)
    ensures var r := Receive(mp, m, a); var got' := got + {a.message.index};
            && Inv(r.manager) && r.manager.lastSweep <= a.now
            && if got' == IndexSet(ChunkCount(|encoded|, maxPayload)) then
                 id !in r.manager.assemblers && id in r.ended && r.ended[id] == Delivered(handler, v)
               else id !in r.ended && Receiving(r.manager, id, encoded, maxPayload, handler, got', a.later)
  {
    var chunk := PayloadChunk(id, encoded, maxPayload, a.message.index);
    var m2 := Touched(m, id, a.now, a.later);
    LiveProcess(mp, m, chunk, a.now, a.later);
    AcceptPiece(mp, m2, id, encoded, maxPayload, handler, got, a.message.index, v);
  }

  /** The manager after the sweep and with the transfer's activity noted. */
  function Touched(m: Manager, id: string, now: int, later: int): Manager {
    var m := Sweep(m, now).0;
    m.(activity := m.activity[id := later])
  }

  /** A live transfer that is not stale survives the sweep before its chunk is accepted. */
  lemma LiveProcess(mp: Msgpack, m: Manager, chunk: Chunk, now: int, later: int)
    requires Inv(m) && m.lastSweep <= now <= later && chunk.id != "" && chunk.id in m.assemblers
    requires now - m.activity[chunk.id] <= STALE_TRANSFER_TTL
    ensures var m2 := Touched(m, chunk.id, now, later);
            && Inv(m2) && chunk.id in m2.assemblers && m2.assemblers[chunk.id] == m.assemblers[chunk.id]
            && m2.onComplete[chunk.id] == m.onComplete[chunk.id] && m2.activity[chunk.id] == later
            && m2.lastSweep <= now && chunk.id !in Sweep(m, now).1
            && Inv(Accept(mp, m2, chunk).0)
            && Process(mp, m, chunk, now, later) == (Accept(mp, m2, chunk).0, Sweep(m, now).1 + Accept(mp, m2, chunk).1)
    ensures Process(mp, m, chunk, now, later).0.lastSweep <= now
  {
    SweepDropsOnlyStale(m, now, chunk.id);
    SweepKeepsInv(m, now);
    ProcessAdvances(mp, m, chunk, now, later);
    LastSweep(mp, m, ProcessChunk(chunk, now, later));
  }

  lemma AcceptPiece(
      mp: Msgpack, m: Manager, id: string, encoded: Bytes, maxPayload: nat, handler: Callback,
      got: set<nat>, index: nat, v: Value)
    requires maxPayload > 0 && Inv(m) && id in m.assemblers && m.onComplete[id] == handler
    requires Progress(m.assemblers[id], encoded, maxPayload, got)
    requires index < ChunkCount(|encoded|, maxPayload) && Codec.Decode(mp, encoded) == Ok(v)
    ensures var (m', out) := Accept(mp, m, PayloadChunk(id, encoded, maxPayload, index));
            if got + {index} == IndexSet(ChunkCount(|encoded|, maxPayload)) then
              id !in m'.assemblers && out == map[id := Delivered(handler, v)]
            else
              && out == map[] && id in m'.assemblers && m' == m.(assemblers := m'.assemblers)
              && Progress(m'.assemblers[id], encoded, maxPayload, got + {index})
  {
    var chunk := PayloadChunk(id, encoded, maxPayload, index);
    AddProgress(m.assemblers[id], encoded, maxPayload, got, index);
    GatheredComplete(Add(m.assemblers[id], chunk).value, encoded, maxPayload, got + {index});
  }

  /** Arrivals of other transfers, before the header. */
  lemma {:induction false} BeforeHeader(mp: Msgpack, m: Manager, arrivals: seq<Arrival>, id: string)
    requires Inv(m) && Monotone(arrivals, m.lastSweep) && id !in m.assemblers
    requires forall k :: 0 <= k < |arrivals| ==> !Concerns(arrivals[k], id)
    ensures Outcomes(mp, m, arrivals, id) == []
    ensures Inv(ReceiveAll(mp, m, arrivals)) && id !in ReceiveAll(mp, m, arrivals).assemblers
    decreases arrivals
  {
    if arrivals != [] {
      OtherArrival(mp, m, arrivals[0], id);
      MonotoneSince(arrivals[1..], arrivals[0].later, Receive(mp, m, arrivals[0]).manager.lastSweep);
      BeforeHeader(mp, Receive(mp, m, arrivals[0]).manager, arrivals[1..], id);
    }
  }

  lemma MonotoneSince(arrivals: seq<Arrival>, since: int, earlier: int)
    requires Monotone(arrivals, since) && earlier <= since
    ensures Monotone(arrivals, earlier)
  {
  }

  /** Once a transfer is over, late and repeated chunks of it do nothing. */
  lemma {:induction false} AfterEnd(
      mp: Msgpack, m: Manager, arrivals: seq<Arrival>, id: string, encoded: Bytes, maxPayload: nat)
    requires maxPayload > 0 && Inv(m) && Monotone(arrivals, m.lastSweep) && id !in m.assemblers
    requires OnlyPieces(arrivals, id, encoded, maxPayload)
    ensures Outcomes(mp, m, arrivals, id) == []
    decreases arrivals
  {
    if arrivals != [] {
      var a := arrivals[0];
      var m' := Receive(mp, m, a).manager;
      if Concerns(a, id) {
        SweepKeepsInv(m, a.now);
        assert id !in Sweep(m, a.now).0.assemblers;
      } else {
        OtherArrival(mp, m, a, id);
      }
      LaterPieces(arrivals, id, encoded, maxPayload);
      MonotoneSince(arrivals[1..], a.later, m'.lastSweep);
      AfterEnd(mp, m', arrivals[1..], id, encoded, maxPayload);
    }
  }

  lemma LaterPieces(arrivals: seq<Arrival>, id: string, encoded: Bytes, maxPayload: nat)
    requires maxPayload > 0 && arrivals != [] && OnlyPieces(arrivals, id, encoded, maxPayload)
    ensures OnlyPieces(arrivals[1..], id, encoded, maxPayload)
  {
    assert forall k :: 0 <= k < |arrivals[1..]| ==> arrivals[1..][k] == arrivals[k + 1];
  }

  /** From a live transfer on: the chunks in any order, among anything else, end in one delivery. */
  lemma {:induction false} PiecesDeliver(
      mp: Msgpack, m: Manager, arrivals: seq<Arrival>, handler: Callback,
      id: string, encoded: Bytes, maxPayload: nat, got: set<nat>, last: int, v: Value)
    requires maxPayload > 0 && id != "" && Receiving(m, id, encoded, maxPayload, handler, got, last)
    requires Monotone(arrivals, m.lastSweep) && NoIdleGap(arrivals, id, last)
    requires OnlyPieces(arrivals, id, encoded, maxPayload)
    requires got + Arrived(arrivals, id) == IndexSet(ChunkCount(|encoded|, maxPayload))
    requires Codec.Decode(mp, encoded) == Ok(v)
    ensures Outcomes(mp, m, arrivals, id) == [Delivered(handler, v)]
    decreases arrivals
  {
    NotYetStale(arrivals, id, last, m.lastSweep);
    var a, rest := arrivals[0], arrivals[1..];
    var r := Receive(mp, m, a);
    LaterPieces(arrivals, id, encoded, maxPayload);
    if Concerns(a, id) {
      OwnPiece(mp, m, a, handler, id, encoded, maxPayload, got, last, v);
      MonotoneSince(rest, a.later, r.manager.lastSweep);
      var got' := got + {a.message.index};
      assert got' + Arrived(rest, id) == got + Arrived(arrivals, id);
      if got' == IndexSet(ChunkCount(|encoded|, maxPayload)) {
        AfterEnd(mp, r.manager, rest, id, encoded, maxPayload);
      } else {
        PiecesDeliver(mp, r.manager, rest, handler, id, encoded, maxPayload, got', a.later, v);
      }
    } else {
      OtherArrival(mp, m, a, id);
      MonotoneSince(rest, a.later, r.manager.lastSweep);
      PiecesDeliver(mp, r.manager, rest, handler, id, encoded, maxPayload, got, last, v);
    }
  }

  lemma HeaderFields(id: string, count: nat, size: nat, chunkSize: nat)
    ensures var h := HeaderValue(id, count, size, chunkSize);
            && Field(h, ID_KEY) == Some(Str(id)) && NatOf(Field(h, CHUNKS_KEY)) == Some(count)
            && NatOf(Field(h, SIZE_KEY)) == Some(size) && NatOf(Field(h, CHUNK_SIZE_KEY)) == Some(chunkSize)
  {
    var h := HeaderValue(id, count, size, chunkSize);
    assert SIZE_KEY[0] != CHUNK_SIZE_KEY[0];
    assert |TYPE_KEY| == 4 && |ID_KEY| == 10 && |CHUNKS_KEY| == 11 && |SIZE_KEY| == |CHUNK_SIZE_KEY| == 9;
    assert Lookup(h.keys, h.items, ID_KEY) == Lookup(h.keys[1..], h.items[1..], ID_KEY);
    forall key | key == CHUNKS_KEY || key == SIZE_KEY || key == CHUNK_SIZE_KEY
      ensures Lookup(h.keys, h.items, key) == Lookup(h.keys[2..], h.items[2..], key)
    {
      assert h.keys[1..][1..] == h.keys[2..] && h.items[1..][1..] == h.items[2..];
      assert Lookup(h.keys, h.items, key) == Lookup(h.keys[1..], h.items[1..], key);
    }
    assert h.keys[2..][1..] == h.keys[3..] && h.items[2..][1..] == h.items[3..];
    assert h.keys[3..][1..] == h.keys[4..] && h.items[3..][1..] == h.items[4..];
    assert Lookup(h.keys[2..], h.items[2..], SIZE_KEY) == Lookup(h.keys[3..], h.items[3..], SIZE_KEY);
    assert Lookup(h.keys[2..], h.items[2..], CHUNK_SIZE_KEY) == Lookup(h.keys[3..], h.items[3..], CHUNK_SIZE_KEY);
    assert Lookup(h.keys[3..], h.items[3..], CHUNK_SIZE_KEY) == Lookup(h.keys[4..], h.items[4..], CHUNK_SIZE_KEY);
  }

  /** What the handler reads in the publisher's own header. */
  lemma OwnAnnouncement(mp: Msgpack, a: Arrival, id: string, count: nat, size: nat, chunkSize: nat)
    requires Lawful(mp) && id != ""
    requires var h := mp.encode(HeaderValue(id, count, size, chunkSize)); h.Some? && a.message == Header(id, h.value)
    ensures Announce(mp, a) ==
            Some(Announcement(id, count, Some(size), Some(chunkSize), a.handler, a.handler, a.allocates, a.leftover))
  {
    HeaderFields(id, count, size, chunkSize);
    var h := HeaderValue(id, count, size, chunkSize);
    assert mp.decode(a.message.data) == Some(h);
  }

  /** A start files the transfer with its callbacks, whatever the sweep drops. */
  lemma StartFiles(mp: Msgpack, m: Manager, announced: Announcement, now: int, later: int)
    requires Inv(m) && m.lastSweep <= now <= later && announced.id !in m.assemblers
    ensures var (m', out) := Start(m, announced, now, later); var id := announced.id;
            && Inv(m') && id !in out && m'.lastSweep <= now
            && id in m'.assemblers && m'.assemblers[id] == Fresh(announced)
            && m'.onComplete[id] == announced.onComplete && m'.activity[id] == later
  {
    SweepKeepsInv(m, now);
    StepKeepsInv(mp, m, StartReceiving(announced, now, later));
  }

  /** A header of this transfer opens it. */
  lemma HeaderOpens(
      mp: Msgpack, m: Manager, a: Arrival, id: string, encoded: Bytes, maxPayload: nat)
    requires Lawful(mp) && maxPayload > 0 && |encoded| > 0 && id != "" && Inv(m)
    requires m.lastSweep <= a.now <= a.later && id !in m.assemblers
    requires var h := mp.encode(HeaderValue(id, ChunkCount(|encoded|, maxPayload), |encoded|, maxPayload));
             h.Some? && a.message == Header(id, h.value)
    ensures var r := Receive(mp, m, a);
            && id !in r.ended && r.manager.lastSweep <= a.now
            && Receiving(r.manager, id, encoded, maxPayload, a.handler, {}, a.later)
  {
    var count := ChunkCount(|encoded|, maxPayload);
    OwnAnnouncement(mp, a, id, count, |encoded|, maxPayload);
    var announced := Announce(mp, a).value;
    StartFiles(mp, m, announced, a.now, a.later);
    ExpectProgress(New(id).(chunkSize := a.leftover), encoded, maxPayload, a.allocates);
    ChunkStart(|encoded|, maxPayload, 0);
    assert 0 in IndexSet(count);
  }

  /**
   * End to end. A value that survives the codec and is too large for one
   * message: its header, then its chunks in any order and with any
   * repetition, among any other traffic of the client's subscriptions, make the
   * receiver run the handler of the subscription the header came on
   * exactly once with that value, and its error callback never.
   */
  lemma EndToEnd(
      mp: Msgpack, v: Value, maxPayload: nat, id: string, m: Manager,
      before: seq<Arrival>, header: Arrival, after: seq<Arrival>)
    requires Lawful(mp) && maxPayload > 0 && id != ""
    requires Extraction.Small(v) || LookAlikeFree(v)
    requires var sent := Publish(mp, v, maxPayload, id);
             && sent.Ok? && !FitsOne(mp, v, maxPayload) && header.message == sent.value[0]
             && (forall k :: 0 <= k < |after| && Concerns(after[k], id) ==> after[k].message in sent.value[1..])
             && (forall i :: 1 <= i < |sent.value| ==> Comes(after, sent.value[i]))
    requires forall k :: 0 <= k < |before| ==> !Concerns(before[k], id)
    requires Inv(m) && id !in m.assemblers
    requires Monotone(before + [header] + after, m.lastSweep) && NoIdleGap(after, id, header.later)
    ensures Outcomes(mp, m, before + [header] + after, id) == [Delivered(header.handler, v)]
  {
    var encoded := Codec.Encode(mp, v).value;
    PublishFits(mp, v, maxPayload, id);
    Codec.RoundTripIff(mp, v);
    var sent := Publish(mp, v, maxPayload, id).value;
    var count := ChunkCount(|encoded|, maxPayload);
    SentArePieces(after, id, encoded, maxPayload, sent, count);
    TransferDelivers(mp, v, encoded, maxPayload, id, m, before, header, after);
  }

  /** From the header on. */
  lemma FromHeader(
      mp: Msgpack, v: Value, encoded: Bytes, maxPayload: nat, id: string, m: Manager,
      header: Arrival, after: seq<Arrival>)
    requires Lawful(mp) && maxPayload > 0 && |encoded| > 0 && id != "" && Codec.Decode(mp, encoded) == Ok(v)
    requires var h := mp.encode(HeaderValue(id, ChunkCount(|encoded|, maxPayload), |encoded|, maxPayload));
             h.Some? && header.message == Header(id, h.value)
    requires OnlyPieces(after, id, encoded, maxPayload)
    requires Arrived(after, id) == IndexSet(ChunkCount(|encoded|, maxPayload))
    requires Inv(m) && id !in m.assemblers
    requires Monotone([header] + after, m.lastSweep) && NoIdleGap(after, id, header.later)
    ensures Outcomes(mp, m, [header] + after, id) == [Delivered(header.handler, v)]
  {
    assert ([header] + after)[1..] == after;
    HeaderOpens(mp, m, header, id, encoded, maxPayload);
    var m1 := Receive(mp, m, header).manager;
    MonotoneSince(after, header.later, m1.lastSweep);
    assert {} + Arrived(after, id) == Arrived(after, id);
    PiecesDeliver(mp, m1, after, header.handler, id, encoded, maxPayload, {}, header.later, v);
  }

  lemma TransferDelivers(
      mp: Msgpack, v: Value, encoded: Bytes, maxPayload: nat, id: string, m: Manager,
      before: seq<Arrival>, header: Arrival, after: seq<Arrival>)
    requires Lawful(mp) && maxPayload > 0 && |encoded| > 0 && id != "" && Codec.Decode(mp, encoded) == Ok(v)
    requires var h := mp.encode(HeaderValue(id, ChunkCount(|encoded|, maxPayload), |encoded|, maxPayload));
             h.Some? && header.message == Header(id, h.value)
    requires OnlyPieces(after, id, encoded, maxPayload)
    requires Arrived(after, id) == IndexSet(ChunkCount(|encoded|, maxPayload))
    requires forall k :: 0 <= k < |before| ==> !Concerns(before[k], id)
    requires Inv(m) && id !in m.assemblers
    requires Monotone(before + [header] + after, m.lastSweep) && NoIdleGap(after, id, header.later)
    ensures Outcomes(mp, m, before + [header] + after, id) == [Delivered(header.handler, v)]
  {
    var arrivals := [header] + after;
    assert before + [header] + after == before + arrivals;
    MonotoneSplit(before, arrivals, m.lastSweep);
    BeforeHeader(mp, m, before, id);
    OutcomesSplit(mp, m, before, arrivals, id);
    ReceiveAllSwept(mp, m, before, arrivals);
    FromHeader(mp, v, encoded, maxPayload, id, ReceiveAll(mp, m, before), header, after);
  }

  lemma {:induction false} MonotoneSplit(a: seq<Arrival>, b: seq<Arrival>, since: int)
    requires Monotone(a + b, since)
    ensures Monotone(a, since)
    decreases a
  {
    if a != [] {
      assert (a + b)[1..] == a[1..] + b;
      MonotoneSplit(a[1..], b, a[0].later);
    }
  }

  lemma {:induction false} OutcomesSplit(
      mp: Msgpack, m: Manager, a: seq<Arrival>, b: seq<Arrival>, id: string)
    ensures Outcomes(mp, m, a + b, id) ==
            Outcomes(mp, m, a, id) + Outcomes(mp, ReceiveAll(mp, m, a), b, id)
    decreases a
  {
    if a == [] {
      assert a + b == b;
    } else {
      assert (a + b)[1..] == a[1..] + b;
      OutcomesSplit(mp, Receive(mp, m, a[0]).manager, a[1..], b, id);
    }
  }

  /** After a run the clock is past the last sweep. */
  lemma {:induction false} ReceiveAllSwept(mp: Msgpack, m: Manager, a: seq<Arrival>, b: seq<Arrival>)
    requires Inv(m) && Monotone(a + b, m.lastSweep)
    ensures Monotone(b, ReceiveAll(mp, m, a).lastSweep)
    decreases a
  {
    if a == [] {
      assert a + b == b;
    } else {
      assert (a + b)[1..] == a[1..] + b;
      var id := if a[0].message.Plain? then "" else a[0].message.transferId + "x";
      OtherArrival(mp, m, a[0], id);
      MonotoneSince(a[1..] + b, a[0].later, Receive(mp, m, a[0]).manager.lastSweep);
      ReceiveAllSwept(mp, Receive(mp, m, a[0]).manager, a[1..], b);
    }
  }

  /** The transfer's messages after the header are its chunks, and all of them come. */
  lemma SentArePieces(after: seq<Arrival>, id: string, encoded: Bytes, maxPayload: nat, sent: seq<Message>, count: nat)
    requires maxPayload > 0 && count == ChunkCount(|encoded|, maxPayload)
    requires |sent| == count + 1 && sent[1..] == Pieces(id, encoded, maxPayload, count)
    requires forall k :: 0 <= k < |after| && Concerns(after[k], id) ==> after[k].message in sent[1..]
    requires forall i :: 1 <= i < |sent| ==> Comes(after, sent[i])
    ensures OnlyPieces(after, id, encoded, maxPayload)
    ensures Arrived(after, id) == IndexSet(count)
  {
    forall i: nat
      ensures i in Arrived(after, id) <==> i < count
    {
      ArrivedAt(after, id, i);
      if i < count {
        assert sent[i + 1] == sent[1..][i] == PieceOf(id, encoded, maxPayload, i);
        assert Comes(after, sent[i + 1]);
      }
    }
  }

  lemma {:induction false} ArrivedAt(arrivals: seq<Arrival>, id: string, i: nat)
    ensures i in Arrived(arrivals, id) <==>
            exists k :: 0 <= k < |arrivals| && IsPiece(arrivals[k], id, i)
    decreases arrivals
  {
    if arrivals != [] {
      ArrivedAt(arrivals[1..], id, i);
      assert arrivals == [arrivals[0]] + arrivals[1..];
      if k :| 0 <= k < |arrivals| && IsPiece(arrivals[k], id, i) {
        assert k > 0 ==> arrivals[1..][k - 1] == arrivals[k];
      }
      if k :| 0 <= k < |arrivals[1..]| && IsPiece(arrivals[1..][k], id, i) {
        assert arrivals[k + 1] == arrivals[1..][k];
      }
    }
  }

  /** A value that fits one message reaches the handler at once. */
  lemma DirectDelivery(mp: Msgpack, v: Value, maxPayload: nat, id: string, m: Manager, a: Arrival)
    requires Lawful(mp) && maxPayload > 0 && (Extraction.Small(v) || LookAlikeFree(v))
    requires FitsOne(mp, v, maxPayload)
    requires Publish(mp, v, maxPayload, id) == Ok([a.message])
    ensures Receive(mp, m, a) == Received(m, map[], Some(v))
  {
    PublishFits(mp, v, maxPayload, id);
    assert [a.message][0] == Plain(Codec.Encode(mp, v).value);
    Codec.RoundTripIff(mp, v);
  }
}
