/** The assembler and the manager as objects: buffers written in place, assemblers pooled and reused. */
module Chunking {
  import opened Wire
  import opened Values
  import opened Chunks
  import opened Transfers
  import Codec

  class ChunkAssembler {
    var id: string
    var chunksReceived: set<nat>
    var totalChunks: Option<nat>
    var totalSize: nat
    var buffer: array?<Byte>
    var tempChunks: map<nat, Bytes>
    var chunkSize: Option<nat>

    constructor (id: string)
      ensures Abs() == New(id) && buffer == null
    {
      this.id, chunksReceived, tempChunks := id, {}, map[];
      totalChunks, totalSize, buffer, chunkSize := None, 0, null, None;
    }

    ghost predicate Valid()
      reads this
    {
      buffer != null ==> buffer.Length == totalSize
    }

    ghost function Abs(): Assembly
      reads this, buffer
    {
      Assembly(id, chunksReceived, totalChunks, totalSize,
               if buffer == null then None else Some(buffer[..]), tempChunks, chunkSize)
    }

    /** Make a pooled assembler ready for another transfer; it keeps its chunk size. */
    method Reset(id: string)
      modifies this
      ensures buffer == null && Abs() == New(id).(chunkSize := old(chunkSize))
    {
      this.id, chunksReceived, totalChunks, totalSize, buffer, tempChunks := id, {}, None, 0, null, map[];
    }

    method Release()
      modifies this
      ensures buffer == null && id == old(id) && chunkSize == old(chunkSize)
    {
      buffer := null;
      tempChunks := map[];
    }

    method SetExpectedChunks(count: nat, size: Option<nat>, chunkSize: Option<nat>, allocates: bool)
      requires Valid() && buffer == null
      modifies this
      ensures Valid() && Abs() == Expect(old(Abs()), count, size, chunkSize, allocates)
      ensures buffer != null ==> fresh(buffer)
    {
      totalChunks := Some(count);
      if chunkSize.Some? {
        this.chunkSize := chunkSize;
      }
      if size.Some? && size.value > 0 {
        totalSize := size.value;
        if allocates {
          buffer := new Byte[size.value](_ => 0);
          assert buffer[..] == Zeros(size.value);
        } else {
          buffer := null;
        }
      }
    }

    /** True when the transfer is complete. */
    method AddChunk(chunk: Chunk) returns (r: Result<bool>)
      requires Valid()
      modifies this, buffer
      ensures Valid() && buffer == old(buffer) && id == old(id)
      ensures r.Ok? <==> chunk.id == id
      ensures r.Ok? ==> Add(old(Abs()), chunk) == Ok(Abs()) && r.value == Complete(Abs())
      ensures r.Err? ==> Add(old(Abs()), chunk) == Err(r.error) && Abs() == old(Abs())
    {
      if chunk.id != id {
        return Err(ChunkIdMismatch);
      }
      var size := |chunk.data|;
      if chunkSize.None? && chunk.index == 0 && totalChunks.Some? && totalChunks.value > 1 {
        chunkSize := Some(size);
      }
      var effective := if chunkSize.Some? && chunkSize.value != 0 then chunkSize.value else size;
      if buffer != null {
        WriteAt(chunk.index * effective, chunk.data);
      } else {
        tempChunks := tempChunks[chunk.index := chunk.data];
      }
      chunksReceived := chunksReceived + {chunk.index};
      if chunk.isLast {
        totalChunks := Some(chunk.index + 1);
      }
      return Ok(IsComplete());
    }

    /** Copy into the buffer, clipped at its end. */
    method WriteAt(offset: nat, data: Bytes)
      requires Valid() && buffer != null
      modifies buffer
      ensures buffer[..] == Write(old(buffer[..]), offset, data)
    {
      var end := if offset + |data| <= totalSize then |data|
                 else if offset < totalSize then totalSize - offset else 0;
      forall i | 0 <= i < end {
        buffer[offset + i] := data[i];
      }
    }

    predicate IsComplete()
      reads this
    {
      totalChunks.Some? && |chunksReceived| == totalChunks.value
    }

    method GetData(mp: Msgpack) returns (r: Result<Value>)
      requires Valid() && IsComplete()
      ensures r == Data(mp, Abs())
    {
      if buffer != null {
        r := Codec.DecodeMessage(mp, buffer[..]);
        return;
      }
      var combined: Bytes := [];
      assert JoinTemp(tempChunks, 0, totalChunks.value).Ok? ==>
          [] + JoinTemp(tempChunks, 0, totalChunks.value).value == JoinTemp(tempChunks, 0, totalChunks.value).value;
      for i := 0 to totalChunks.value
        invariant JoinTemp(tempChunks, 0, totalChunks.value) ==
                  match JoinTemp(tempChunks, i, totalChunks.value)
                  case Err(e) => Err(e)
                  case Ok(rest) => Ok(combined + rest)
      {
        if i !in tempChunks {
          return Err(MissingChunk);
        }
        ghost var rest := JoinTemp(tempChunks, i + 1, totalChunks.value);
        assert rest.Ok? ==> combined + (tempChunks[i] + rest.value) == (combined + tempChunks[i]) + rest.value;
        combined := combined + tempChunks[i];
      }
      assert combined + [] == combined;
      r := Codec.DecodeMessage(mp, combined);
    }
  }

  const POOL_LIMIT := 10

  class ChunkingManager {
    var assemblers: map<string, ChunkAssembler>
    var onComplete: map<string, Callback>
    var onError: map<string, Callback>
    var pool: seq<ChunkAssembler>
    var activity: map<string, int>
    var lastSweep: int

    /** The manager's value; the objects it may write; whose each buffer is; the buffers it has given away. */
    ghost var model: Manager
    ghost var objects: set<ChunkAssembler>
    ghost var owner: map<array<Byte>, string>
    ghost var delivered: set<array<Byte>>

    constructor ()
      ensures Valid() && model == EMPTY && pool == []
      ensures objects == {} && owner == map[] && delivered == {}
    {
      assemblers, onComplete, onError, pool, activity, lastSweep := map[], map[], map[], [], map[], 0;
      model, objects, owner, delivered := EMPTY, {}, map[], {};
    }

    ghost predicate Valid()
      reads this, objects, owner.Keys
    {
      && model == Manager(model.assemblers, onComplete, onError, activity, lastSweep)
      && delivered !! owner.Keys
      && LiveValid(assemblers, model.assemblers, objects, owner)
      && PoolValid(pool, assemblers, objects)
    }

    /** Each live assembler is filed under its id, is its model, and owns its buffer. */
    static ghost predicate LiveValid(
        live: map<string, ChunkAssembler>, model: map<string, Assembly>,
        objects: set<ChunkAssembler>, owner: map<array<Byte>, string>)
      reads objects, owner.Keys
    {
      && live.Keys == model.Keys
      && forall id :: id in live ==>
           live[id] in objects && Owned(live[id], id, model[id], owner)
    }

    static ghost predicate Owned(a: ChunkAssembler, id: string, model: Assembly, owner: map<array<Byte>, string>)
      reads a, owner.Keys
    {
      && a.id == id && a.Valid()
      && (a.buffer != null ==> a.buffer in owner && owner[a.buffer] == id)
      && a.Abs() == model
    }

    /** Pooled assemblers are at most ten, all different, none live, and own no buffer. */
    static ghost predicate PoolValid(
        pool: seq<ChunkAssembler>, live: map<string, ChunkAssembler>, objects: set<ChunkAssembler>)
      reads objects
    {
      && |pool| <= POOL_LIMIT
      && (forall i, j :: 0 <= i < j < |pool| ==> pool[i] != pool[j])
      && (forall i :: 0 <= i < |pool| ==> pool[i] in objects && Idle(pool[i], live))
    }

    static ghost predicate Idle(a: ChunkAssembler, live: map<string, ChunkAssembler>)
      reads a
    {
      a.buffer == null && !(a.id in live && live[a.id] == a)
    }

    /** A pooled assembler, reset, or a new one; `leftover` is the chunk size it keeps. */
    method GetAssembler(id: string) returns (a: ChunkAssembler, ghost leftover: Option<nat>)
      requires Valid()
      modifies this`pool, this`objects, objects
      ensures Valid() && a in objects && objects <= old(objects) + {a} && (a in old(objects) || fresh(a))
      ensures a !in pool && Idle(a, assemblers)
      ensures a.Abs() == New(id).(chunkSize := leftover)
    {
      if |pool| > 0 {
        a := pool[|pool| - 1];
        pool := pool[..|pool| - 1];
        leftover := a.chunkSize;
        a.Reset(id);
      } else {
        a := new ChunkAssembler(id);
        leftover := None;
        objects := objects + {a};
      }
    }

    /** An assembler ready for the announced transfer. */
    method Prepare(id: string, count: nat, totalSize: Option<nat>, chunkSize: Option<nat>, allocates: bool)
      returns (a: ChunkAssembler, ghost leftover: Option<nat>)
      requires Valid()
      modifies this`pool, this`objects, objects
      ensures Valid() && a in objects && objects <= old(objects) + {a} && (a in old(objects) || fresh(a))
      ensures a !in pool && a.id == id && a.Valid() && (a.buffer != null ==> fresh(a.buffer))
      ensures a.Abs() == Expect(New(id).(chunkSize := leftover), count, totalSize, chunkSize, allocates)
    {
      a, leftover := GetAssembler(id);
      a.SetExpectedChunks(count, totalSize, chunkSize, allocates);
    }

    /** Free the assembler's storage and keep it if there is room. */
    method ReturnAssembler(a: ChunkAssembler)
      requires Valid() && a in objects && a !in pool && a.id !in assemblers
      modifies this`pool, a
      ensures Valid() && |pool| == if old(|pool|) < POOL_LIMIT then old(|pool|) + 1 else old(|pool|)
    {
      a.Release();
      if |pool| < POOL_LIMIT {
        pool := pool + [a];
      }
    }

    /** Drop every trace of a transfer and recycle its assembler. */
    method Forget(id: string)
      requires Valid()
      modifies this, objects
      ensures Valid() && model == Drop(old(model), {id})
      ensures objects == old(objects) && owner == old(owner) && delivered == old(delivered)
    {
      if id in assemblers {
        var a := assemblers[id];
        Unfile(id);
        ReturnAssembler(a);
      } else {
        Unregister(id);
        assert model.assemblers == model.assemblers - {id};
      }
    }

    /** Remove a live transfer from the four maps. */
    method Unfile(id: string)
      requires Valid() && id in assemblers
      modifies this
      ensures Valid() && model == Drop(old(model), {id})
      ensures objects == old(objects) && owner == old(owner) && delivered == old(delivered) && pool == old(pool)
      ensures old(assemblers[id]) !in pool && assemblers == old(assemblers) - {id}
    {
      assemblers := assemblers - {id};
      model := model.(assemblers := model.assemblers - {id});
      Unregister(id);
    }

    method Unregister(id: string)
      requires Valid()
      modifies this`onComplete, this`onError, this`activity, this`model
      ensures Valid() && model == Manager(
        old(model).assemblers, old(model).onComplete - {id}, old(model).onError - {id}, old(model).activity - {id},
        old(model).lastSweep)
    {
      onComplete, onError, activity := onComplete - {id}, onError - {id}, activity - {id};
      model := Manager(model.assemblers, onComplete, onError, activity, lastSweep);
    }

    /** The rate-limited sweep; it reports the error callbacks it runs. */
    method SweepStale(now: int) returns (out: map<string, Outcome>)
      requires Valid()
      modifies this, objects
      ensures Valid() && model == Sweep(old(model), now).0 && out == Sweep(old(model), now).1
      ensures objects == old(objects) && owner == old(owner) && delivered == old(delivered)
    {
      out := map[];
      if activity == map[] || now - lastSweep < SWEEP_INTERVAL {
        return;
      }
      lastSweep, model := now, model.(lastSweep := now);
      out := DropAll(set id | id in activity && activity[id] < now - STALE_TRANSFER_TTL);
    }

    /** Drop transfers, telling their error callbacks. */
    method DropAll(stale: set<string>) returns (out: map<string, Outcome>)
      requires Valid()
      modifies this, objects
      ensures Valid() && model == Drop(old(model), stale)
      ensures out == map id | id in stale && id in old(onError) :: Failed(old(onError)[id], TimedOut)
      ensures objects == old(objects) && owner == old(owner) && delivered == old(delivered)
    {
      out := map[];
      ghost var before := model;
      var todo := stale;
      DropNothing(model);
      while todo != {}
        invariant todo <= stale && Valid()
        invariant model == Drop(before, stale - todo)
        invariant forall id :: id in out <==> id in stale - todo && id in before.onError
        invariant forall id :: id in out ==> out[id] == Failed(before.onError[id], TimedOut)
        invariant objects == old(objects) && owner == old(owner) && delivered == old(delivered)
      {
        var id :| id in todo;
        if id in onError {
          out := out[id := Failed(onError[id], TimedOut)];
        }
        DropMore(before, stale - todo, id);
        Forget(id);
        assert stale - (todo - {id}) == stale - todo + {id};
        todo := todo - {id};
      }
      assert stale - todo == stale;
    }

    static lemma DropNothing(m: Manager)
      ensures forall ids :: ids == {} ==> Drop(m, ids) == m
    {
      assert m.assemblers - {} == m.assemblers && m.onComplete - {} == m.onComplete;
      assert m.onError - {} == m.onError && m.activity - {} == m.activity;
    }

    static lemma DropMore(m: Manager, ids: set<string>, id: string)
      ensures Drop(Drop(m, ids), {id}) == Drop(m, ids + {id})
    {
    }

    /** Tell the error callback and drop the transfer. */
    method HandleError(id: string, error: Error) returns (out: map<string, Outcome>)
      requires Valid()
      modifies this, objects
      ensures Valid() && model == Fail(old(model), id, error).0 && out == Fail(old(model), id, error).1
      ensures objects == old(objects) && owner == old(owner) && delivered == old(delivered)
    {
      out := if id in onError then map[id := Failed(onError[id], error)] else map[];
      Forget(id);
    }

    method Cancel(id: string) returns (out: map<string, Outcome>)
      requires Valid()
      modifies this, objects
      ensures Valid() && model == Fail(old(model), id, Cancelled).0 && out == Fail(old(model), id, Cancelled).1
      ensures objects == old(objects) && owner == old(owner) && delivered == old(delivered)
    {
      out := HandleError(id, Cancelled);
    }

    /** Open a transfer; `leftover` is the chunk size its pooled assembler kept. */
    method StartReceiving(
        id: string, count: nat, complete: Callback, error: Callback, totalSize: Option<nat>, chunkSize: Option<nat>,
        now: int, later: int, allocates: bool)
      returns (out: map<string, Outcome>, ghost leftover: Option<nat>)
      requires Valid()
      modifies this, objects
      ensures Valid() && delivered == old(delivered)
      ensures fresh(objects - old(objects)) && fresh(owner.Keys - old(owner.Keys))
      ensures (model, out) ==
              Start(old(model), Announcement(id, count, totalSize, chunkSize, complete, error, allocates, leftover),
                    now, later)
    {
      out := SweepStale(now);
      var a;
      a, leftover := Prepare(id, count, totalSize, chunkSize, allocates);
      File(id, a);
      Register(id, complete, error, later);
    }

    /** Enter an assembler with a buffer of its own under its id. */
    method File(id: string, a: ChunkAssembler)
      requires Valid() && a in objects && a !in pool && a.id == id && a.Valid()
      requires a.buffer != null ==> a.buffer !in owner && a.buffer !in delivered
      modifies this`assemblers, this`owner, this`model
      ensures Valid() && owner == if a.buffer == null then old(owner) else old(owner)[a.buffer := id]
      ensures model == old(model).(assemblers := old(model).assemblers[id := a.Abs()])
    {
      ghost var owner' := if a.buffer == null then owner else owner[a.buffer := id];
      Own(assemblers, model.assemblers, objects, owner, a, owner');
      owner := owner';
      assemblers := assemblers[id := a];
      model := model.(assemblers := model.assemblers[id := a.Abs()]);
    }

    /** Enter the callbacks and the time of a transfer. */
    method Register(id: string, complete: Callback, error: Callback, later: int)
      requires Valid()
      modifies this`onComplete, this`onError, this`activity, this`model
      ensures Valid() && model == Manager(
        old(model).assemblers, old(model).onComplete[id := complete], old(model).onError[id := error],
        old(model).activity[id := later], old(model).lastSweep)
    {
      onComplete := onComplete[id := complete];
      onError := onError[id := error];
      activity := activity[id := later];
      model := Manager(model.assemblers, onComplete, onError, activity, lastSweep);
    }

    /** Feed one chunk. No buffer delivered before is written, and what is delivered is never written again. */
    method ProcessChunk(mp: Msgpack, chunk: Chunk, now: int, later: int, callbackThrows: bool)
      returns (out: map<string, Outcome>)
      requires Valid()
      modifies this, objects, owner.Keys
      ensures Valid() && (model, out) == Process(mp, old(model), chunk, now, later)
      ensures objects == old(objects) && owner.Keys <= old(owner.Keys)
      ensures old(delivered) <= delivered <= old(delivered + owner.Keys)
      ensures forall b :: b in old(delivered) ==> b[..] == old(b[..])
    {
      out := SweepStale(now);
      if chunk.id == "" || chunk.id !in assemblers {
        return;
      }
      Touch(chunk.id, later);
      var end := AcceptChunk(mp, chunk, callbackThrows);
      out := out + end;
    }

    method Touch(id: string, later: int)
      requires Valid()
      modifies this`activity, this`model
      ensures Valid() && model == old(model).(activity := old(model).activity[id := later])
    {
      activity := activity[id := later];
      model := model.(activity := activity);
    }

    /** Give the chunk to its assembler, whose id it has. */
    method AddTo(chunk: Chunk) returns (complete: bool, ghost added: Assembly)
      requires Valid() && chunk.id in assemblers
      modifies this`model, objects, owner.Keys
      ensures Valid()
      ensures Add(old(model.assemblers[chunk.id]), chunk) == Ok(added) && complete == Complete(added)
      ensures model == old(model).(assemblers := old(model).assemblers[chunk.id := added])
      ensures forall b :: b in delivered ==> b[..] == old(b[..])
    {
      complete, added := FeedTo(assemblers[chunk.id], chunk);
      Remodel(chunk.id, added);
    }

    ghost method Remodel(id: string, added: Assembly)
      requires model == Manager(model.assemblers, onComplete, onError, activity, lastSweep) && delivered !! owner.Keys
      requires LiveValid(assemblers, model.assemblers[id := added], objects, owner)
      requires PoolValid(pool, assemblers, objects)
      modifies this`model
      ensures Valid() && model == old(model).(assemblers := old(model).assemblers[id := added])
    {
      model := model.(assemblers := model.assemblers[id := added]);
    }

    /** Writing one live assembler and its buffer leaves the others as they were. */
    method FeedTo(a: ChunkAssembler, chunk: Chunk) returns (complete: bool, ghost added: Assembly)
      requires Valid() && chunk.id in assemblers && a == assemblers[chunk.id]
      modifies objects, owner.Keys
      ensures LiveValid(assemblers, model.assemblers[chunk.id := added], objects, owner)
      ensures PoolValid(pool, assemblers, objects)
      ensures Add(model.assemblers[chunk.id], chunk) == Ok(added) && complete == Complete(added)
      ensures forall b :: b in delivered ==> b[..] == old(b[..])
    {
      assert Owned(a, chunk.id, model.assemblers[chunk.id], owner);
      var result := a.AddChunk(chunk);
      complete, added := result.value, a.Abs();
    }

    static lemma Disown(
        live: map<string, ChunkAssembler>, model: map<string, Assembly>,
        objects: set<ChunkAssembler>, owner: map<array<Byte>, string>, b: array<Byte>)
      requires LiveValid(live, model, objects, owner) && b in owner && owner[b] !in live
      ensures LiveValid(live, model, objects, owner - {b})
    {
      forall id | id in live
        ensures Owned(live[id], id, model[id], owner - {b})
      {
        assert Owned(live[id], id, model[id], owner);
      }
    }

    static lemma Own(
        live: map<string, ChunkAssembler>, model: map<string, Assembly>,
        objects: set<ChunkAssembler>, owner: map<array<Byte>, string>, a: ChunkAssembler,
        owner': map<array<Byte>, string>)
      requires LiveValid(live, model, objects, owner) && a in objects && a.Valid()
      requires owner' == if a.buffer == null then owner else owner[a.buffer := a.id]
      requires a.buffer != null ==> a.buffer !in owner
      ensures LiveValid(live[a.id := a], model[a.id := a.Abs()], objects, owner')
    {
      var live', model' := live[a.id := a], model[a.id := a.Abs()];
      forall id | id in live'
        ensures Owned(live'[id], id, model'[id], owner')
      {
        assert id != a.id ==> Owned(live[id], id, model[id], owner);
      }
    }

    /** Hand the buffer's views over and forget the transfer. */
    method Deliver(id: string)
      requires Valid() && id in assemblers
      modifies this, objects
      ensures Valid() && model == Drop(old(model), {id})
      ensures objects == old(objects)
      ensures var b := old(assemblers[id].buffer);
              if b == null then owner == old(owner) && delivered == old(delivered)
              else owner == old(owner) - {b} && delivered == old(delivered) + {b}
    {
      ghost var b := assemblers[id].buffer;
      Forget(id);
      if b != null {
        GiveAway(b);
      }
    }

    /** A buffer whose transfer is over belongs to its receiver. */
    ghost method GiveAway(b: array<Byte>)
      requires Valid() && b in owner && owner[b] !in assemblers
      modifies this`owner, this`delivered
      ensures Valid() && owner == old(owner) - {b} && delivered == old(delivered) + {b}
    {
      Disown(assemblers, model.assemblers, objects, owner, b);
      owner, delivered := owner - {b}, delivered + {b};
    }

    /** A chunk of a live transfer. */
    method AcceptChunk(mp: Msgpack, chunk: Chunk, callbackThrows: bool) returns (out: map<string, Outcome>)
      requires Valid() && chunk.id in assemblers
      modifies this, objects, owner.Keys
      ensures Valid() && (model, out) == Accept(mp, old(model), chunk)
      ensures objects == old(objects) && owner.Keys <= old(owner.Keys)
      ensures old(delivered) <= delivered <= old(delivered + owner.Keys)
      ensures forall b :: b in old(delivered) ==> b[..] == old(b[..])
    {
      var complete, _ := AddTo(chunk);
      if !complete {
        return map[];
      }
      out := SettleTransfer(mp, chunk.id, callbackThrows);
    }

    /**
     * Deliver or fail a transfer whose chunks are all there. A completion
     * callback that throws changes nothing more: the transfer is gone, so the
     * error path finds no callback.
     */
    method SettleTransfer(mp: Msgpack, id: string, callbackThrows: bool) returns (out: map<string, Outcome>)
      requires Valid() && id in assemblers && Complete(model.assemblers[id])
      modifies this, objects
      ensures Valid() && (model, out) == Settle(mp, old(model), id)
      ensures objects == old(objects) && owner.Keys <= old(owner.Keys)
      ensures old(delivered) <= delivered <= old(delivered + owner.Keys)
    {
      var data := assemblers[id].GetData(mp);
      if data.Err? {
        out := HandleError(id, data.error);
        return;
      }
      out := if id in onComplete then map[id := Delivered(onComplete[id], data.value)] else map[];
      Deliver(id);
      if callbackThrows {
        DropMore(old(model), {id}, id);
        assert {id} + {id} == {id};
        var more := HandleError(id, Undecodable);
        assert more == map[];
      }
    }
  }
}
