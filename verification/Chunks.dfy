/** Splitting a payload into chunks and assembling it again, on values (python/camera_ui_rpc/chunking.py). */
module Chunks {
  import opened Wire

  /** One chunk message, its keys normalized. */
  datatype Chunk = Chunk(id: string, index: nat, data: Bytes, isLast: bool)

  function ChunkCount(size: nat, maxSize: nat): nat
    requires maxSize > 0
  {
    (size + maxSize - 1) / maxSize
  }

  function Min(a: nat, b: nat): nat {
    if a <= b then a else b
  }

  /** The bytes of chunk i; nothing past the end. */
  function ChunkBytes(payload: Bytes, maxSize: nat, i: nat): Bytes {
    if i * maxSize <= |payload| then payload[i * maxSize..Min(i * maxSize + maxSize, |payload|)] else []
  }

  lemma Scale(a: nat, b: nat, m: nat)
    ensures a <= b ==> a * m <= b * m
    ensures (a + 1) * m == a * m + m
  {
  }

  lemma Quotient(x: nat, m: nat)
    requires m > 0
    ensures x / m * m <= x < x / m * m + m
  {
  }

  /** A chunk index is in range exactly when its first byte is inside the payload. */
  lemma ChunkStart(size: nat, maxSize: nat, i: nat)
    requires maxSize > 0
    ensures i < ChunkCount(size, maxSize) <==> i * maxSize < size
  {
    var n := ChunkCount(size, maxSize);
    Quotient(size + maxSize - 1, maxSize);
    Scale(i + 1, n, maxSize);
    Scale(i, n, maxSize);
    Scale(n, i, maxSize);
  }

  /** Position q lies in chunk q / maxSize and in no other. */
  lemma PositionInChunk(q: nat, maxSize: nat, i: nat)
    requires maxSize > 0
    ensures q / maxSize == i <==> i * maxSize <= q < i * maxSize + maxSize
  {
    var d := q / maxSize;
    Quotient(q, maxSize);
    Scale(i + 1, d, maxSize);
    Scale(i, d, maxSize);
    Scale(d + 1, i, maxSize);
    Scale(d, i, maxSize);
  }

  method CreateChunks(encoded: Bytes, id: string, maxSize: nat) returns (chunks: seq<Chunk>)
    requires maxSize > 0
    ensures |chunks| == ChunkCount(|encoded|, maxSize)
    ensures forall i :: 0 <= i < |chunks| ==> chunks[i] == PayloadChunk(id, encoded, maxSize, i)
  {
    chunks := [];
    if |encoded| == 0 {
      ChunkStart(0, maxSize, 0);
      return;
    }
    var totalChunks := (|encoded| + maxSize - 1) / maxSize;
    for i := 0 to totalChunks
      invariant |chunks| == i
      invariant forall k :: 0 <= k < i ==> chunks[k] == PayloadChunk(id, encoded, maxSize, k)
    {
      ChunkStart(|encoded|, maxSize, i);
      var start := i * maxSize;
      var end := Min(start + maxSize, |encoded|);
      chunks := chunks + [Chunk(id, i, encoded[start..end], false)];
    }
  }

  /** Node's splitter: the same chunks, the last one marked. */
  method CreateMarkedChunks(encoded: Bytes, id: string, maxSize: nat) returns (chunks: seq<Chunk>)
    requires maxSize > 0
    ensures |chunks| == ChunkCount(|encoded|, maxSize)
    ensures forall i :: 0 <= i < |chunks| ==>
              chunks[i] == PayloadChunk(id, encoded, maxSize, i).(isLast := i == |chunks| - 1)
    ensures encoded != [] ==> chunks != [] && chunks[|chunks| - 1].isLast
  {
    chunks := [];
    var totalChunks := (|encoded| + maxSize - 1) / maxSize;
    for i := 0 to totalChunks
      invariant |chunks| == i
      invariant forall k :: 0 <= k < i ==>
                  chunks[k] == PayloadChunk(id, encoded, maxSize, k).(isLast := k == totalChunks - 1)
    {
      ChunkStart(|encoded|, maxSize, i);
      var start := i * maxSize;
      var end := Min(start + maxSize, |encoded|);
      chunks := chunks + [Chunk(id, i, encoded[start..end], i == totalChunks - 1)];
    }
    ChunkStart(|encoded|, maxSize, 0);
  }

  function PayloadChunk(id: string, payload: Bytes, maxSize: nat, i: nat): Chunk {
    Chunk(id, i, ChunkBytes(payload, maxSize, i), false)
  }

  // ---------------------------------------------------------------- the assembler's state

  datatype Assembly = Assembly(
    id: string,
    received: set<nat>,
    total: Option<nat>,
    totalSize: nat,
    buffer: Option<Bytes>,
    temp: map<nat, Bytes>,
    chunkSize: Option<nat>)

  function New(id: string): Assembly {
    Assembly(id, {}, None, 0, None, map[], None)
  }

  function Zeros(n: nat): (z: Bytes)
    ensures |z| == n
  {
    seq(n, _ => 0)
  }

  /** Set the expected chunks; `allocates` says whether the buffer could be allocated. */
  function Expect(a: Assembly, count: nat, totalSize: Option<nat>, chunkSize: Option<nat>, allocates: bool): Assembly {
    var a := a.(total := Some(count), chunkSize := if chunkSize.Some? then chunkSize else a.chunkSize);
    if totalSize.Some? && totalSize.value > 0 then
      a.(totalSize := totalSize.value, buffer := if allocates then Some(Zeros(totalSize.value)) else None)
    else a
  }

  /** The chunk size an assembler works with once this chunk has been seen. */
  function LearnedSize(a: Assembly, chunk: Chunk): Option<nat> {
    if a.chunkSize.None? && chunk.index == 0 && a.total.Some? && a.total.value > 1 then Some(|chunk.data|)
    else a.chunkSize
  }

  /** Write into the buffer, clipped at its end. */
  function Write(buffer: Bytes, offset: nat, data: Bytes): (r: Bytes)
    ensures |r| == |buffer|
    ensures forall q :: 0 <= q < |buffer| ==>
              r[q] == if offset <= q < offset + |data| then data[q - offset] else buffer[q]
  {
    if offset + |data| <= |buffer| then buffer[..offset] + data + buffer[offset + |data|..]
    else if offset < |buffer| then buffer[..offset] + data[..|buffer| - offset]
    else buffer
  }

  /** The size its index is multiplied with: the known one, or the chunk's own. */
  function EffectiveSize(a: Assembly, chunk: Chunk): nat {
    var learned := LearnedSize(a, chunk);
    if learned.Some? && learned.value != 0 then learned.value else |chunk.data|
  }

  function Add(a: Assembly, chunk: Chunk): Result<Assembly> {
    if chunk.id != a.id then Err(ChunkIdMismatch)
    else
      var at := chunk.index * EffectiveSize(a, chunk);
      var a := a.(
        chunkSize := LearnedSize(a, chunk),
        received := a.received + {chunk.index},
        total := if chunk.isLast then Some(chunk.index + 1) else a.total);
      Ok(if a.buffer.Some? then a.(buffer := Some(Write(a.buffer.value, at, chunk.data)))
         else a.(temp := a.temp[chunk.index := chunk.data]))
  }

  predicate Complete(a: Assembly) {
    a.total.Some? && |a.received| == a.total.value
  }

  /** The stored chunks i .. total-1 in order. */
  function JoinTemp(temp: map<nat, Bytes>, i: nat, total: nat): Result<Bytes>
    decreases total - i
  {
    if i >= total then Ok([])
    else if i !in temp then Err(MissingChunk)
    else
      match JoinTemp(temp, i + 1, total)
      case Err(e) => Err(e)
      case Ok(rest) => Ok(temp[i] + rest)
  }

  /** The reassembled bytes of a complete transfer. */
  function Contents(a: Assembly): Result<Bytes>
    requires Complete(a)
  {
    if a.buffer.Some? then Ok(a.buffer.value) else JoinTemp(a.temp, 0, a.total.value)
  }

  // ---------------------------------------------------------------- order-independent reassembly

  lemma SubsetOfSameSize(a: set<nat>, b: set<nat>)
    requires a <= b && |a| == |b|
    ensures a == b
  {
    assert b == a + (b - a);
    assert |b| == |a| + |b - a|;
  }

  /** The buffer agrees with the payload on every chunk in `got`. */
  predicate Holds(buffer: Bytes, payload: Bytes, maxSize: nat, got: set<nat>)
    requires maxSize > 0
  {
    && |buffer| == |payload|
    && forall q :: 0 <= q < |payload| && q / maxSize in got ==> buffer[q] == payload[q]
  }

  /** The assembler of `payload` has the chunks `got`, each in its place. */
  predicate Gathered(a: Assembly, payload: Bytes, maxSize: nat, got: set<nat>)
    requires maxSize > 0
  {
    && a.total == Some(ChunkCount(|payload|, maxSize))
    && a.received == got
    && got <= IndexSet(ChunkCount(|payload|, maxSize))
    && match a.buffer
       case Some(buffer) => Holds(buffer, payload, maxSize, got)
       case None => a.temp.Keys == got && forall i :: i in got ==> a.temp[i] == ChunkBytes(payload, maxSize, i)
  }

  /** The same, and it knows the sender's chunk size: then order and repetition do not matter. */
  predicate Progress(a: Assembly, payload: Bytes, maxSize: nat, got: set<nat>)
    requires maxSize > 0
  {
    Gathered(a, payload, maxSize, got) && a.chunkSize == Some(maxSize)
  }

  lemma ExpectProgress(a: Assembly, payload: Bytes, maxSize: nat, allocates: bool)
    requires maxSize > 0 && a.received == {} && a.buffer.None? && a.temp == map[]
    ensures var a' := Expect(a, ChunkCount(|payload|, maxSize), Some(|payload|), Some(maxSize), allocates);
            Progress(a', payload, maxSize, {})
  {
  }

  lemma AddProgress(a: Assembly, payload: Bytes, maxSize: nat, got: set<nat>, i: nat)
    requires maxSize > 0 && Progress(a, payload, maxSize, got) && i < ChunkCount(|payload|, maxSize)
    ensures var r := Add(a, PayloadChunk(a.id, payload, maxSize, i));
            r.Ok? && Progress(r.value, payload, maxSize, got + {i}) && r.value.id == a.id
  {
    AddGathers(a, payload, maxSize, got, i);
  }

  /** The chunk goes where the sender took it from. */
  predicate InPlace(a: Assembly, payload: Bytes, maxSize: nat, i: nat) {
    a.buffer.Some? ==> i * EffectiveSize(a, PayloadChunk(a.id, payload, maxSize, i)) == i * maxSize
  }

  lemma AddGathers(a: Assembly, payload: Bytes, maxSize: nat, got: set<nat>, i: nat)
    requires maxSize > 0 && Gathered(a, payload, maxSize, got) && i < ChunkCount(|payload|, maxSize)
    requires InPlace(a, payload, maxSize, i)
    ensures var r := Add(a, PayloadChunk(a.id, payload, maxSize, i));
            r.Ok? && Gathered(r.value, payload, maxSize, got + {i}) && r.value.id == a.id
  {
    if a.buffer.Some? {
      WriteHolds(a.buffer.value, payload, maxSize, got, i);
    }
  }

  lemma WriteHolds(buffer: Bytes, payload: Bytes, maxSize: nat, got: set<nat>, i: nat)
    requires maxSize > 0 && Holds(buffer, payload, maxSize, got) && i < ChunkCount(|payload|, maxSize)
    ensures Holds(Write(buffer, i * maxSize, ChunkBytes(payload, maxSize, i)), payload, maxSize, got + {i})
  {
    ChunkStart(|payload|, maxSize, i);
    var at := i * maxSize;
    var data := payload[at..Min(at + maxSize, |payload|)];
    var after := Write(buffer, at, data);
    forall q | 0 <= q < |payload| && q / maxSize in got + {i}
      ensures after[q] == payload[q]
    {
      PositionInChunk(q, maxSize, i);
    }
  }

  /** Complete means every chunk has come, and then the bytes are the payload's. */
  lemma GatheredComplete(a: Assembly, payload: Bytes, maxSize: nat, got: set<nat>)
    requires maxSize > 0 && Gathered(a, payload, maxSize, got)
    ensures Complete(a) <==> got == IndexSet(ChunkCount(|payload|, maxSize))
    ensures Complete(a) ==> Contents(a) == Ok(payload)
  {
    var n := ChunkCount(|payload|, maxSize);
    if Complete(a) {
      SubsetOfSameSize(got, IndexSet(n));
      if a.buffer.Some? {
        AllPositionsHaveChunks(|payload|, maxSize);
        HoldsAll(a.buffer.value, payload, maxSize, got);
      } else {
        JoinTempIsPayload(a.temp, payload, maxSize, 0, n);
        assert payload[0..] == payload;
      }
    }
  }

  lemma HoldsAll(buffer: Bytes, payload: Bytes, maxSize: nat, got: set<nat>)
    requires maxSize > 0 && Holds(buffer, payload, maxSize, got)
    requires forall q :: 0 <= q < |payload| ==> q / maxSize in got
    ensures buffer == payload
  {
  }

  lemma AllPositionsHaveChunks(size: nat, maxSize: nat)
    requires maxSize > 0
    ensures forall q :: 0 <= q < size ==> q / maxSize in IndexSet(ChunkCount(size, maxSize))
  {
    forall q | 0 <= q < size
      ensures q / maxSize in IndexSet(ChunkCount(size, maxSize))
    {
      PositionHasChunk(size, maxSize, q);
    }
  }

  lemma PositionHasChunk(size: nat, maxSize: nat, q: nat)
    requires maxSize > 0 && q < size
    ensures q / maxSize < ChunkCount(size, maxSize)
  {
    Quotient(q, maxSize);
    ChunkStart(size, maxSize, q / maxSize);
  }

  function From(payload: Bytes, start: nat): Bytes {
    if start <= |payload| then payload[start..] else []
  }

  lemma {:induction false} JoinTempIsPayload(temp: map<nat, Bytes>, payload: Bytes, maxSize: nat, i: nat, n: nat)
    requires maxSize > 0 && n == ChunkCount(|payload|, maxSize)
    requires forall k: nat :: k < n ==> k in temp && temp[k] == ChunkBytes(payload, maxSize, k)
    ensures JoinTemp(temp, i, n) == Ok(From(payload, i * maxSize))
    decreases n - i
  {
    ChunkStart(|payload|, maxSize, i);
    var at := i * maxSize;
    if i < n {
      Scale(i, i, maxSize);
      JoinTempIsPayload(temp, payload, maxSize, i + 1, n);
      ChunkThenRest(payload, maxSize, i, at);
      assert JoinTemp(temp, i, n) == Ok(temp[i] + From(payload, at + maxSize));
    } else {
      assert From(payload, at) == [];
    }
  }

  lemma ChunkThenRest(payload: Bytes, maxSize: nat, i: nat, at: nat)
    requires at == i * maxSize <= |payload|
    ensures From(payload, at) == ChunkBytes(payload, maxSize, i) + From(payload, at + maxSize)
  {
    assert ChunkBytes(payload, maxSize, i) == payload[at..Min(at + maxSize, |payload|)];
  }

  /** Feed an assembler the chunks of a payload with the given indices. */
  function Feed(a: Assembly, payload: Bytes, maxSize: nat, indices: seq<nat>): Result<Assembly>
    decreases indices
  {
    if indices == [] then Ok(a)
    else
      match Add(a, PayloadChunk(a.id, payload, maxSize, indices[0]))
      case Err(e) => Err(e)
      case Ok(a') => Feed(a', payload, maxSize, indices[1..])
  }

  function Elements(indices: seq<nat>): set<nat> {
    set i | i in indices
  }

  /**
   * For any arrival order and repetition of a payload's chunks the assembler
   * is complete exactly when every index has come, and then holds the payload;
   * with or without the pre-allocated buffer.
   */
  lemma Reassembles(id: string, payload: Bytes, maxSize: nat, allocates: bool, indices: seq<nat>)
    requires maxSize > 0
    requires forall k :: 0 <= k < |indices| ==> indices[k] < ChunkCount(|payload|, maxSize)
    ensures var n := ChunkCount(|payload|, maxSize);
            var r := Feed(Expect(New(id), n, Some(|payload|), Some(maxSize), allocates), payload, maxSize, indices);
            && r.Ok?
            && (Complete(r.value) <==> forall i :: 0 <= i < n ==> i in indices)
            && (Complete(r.value) ==> Contents(r.value) == Ok(payload))
  {
    var n := ChunkCount(|payload|, maxSize);
    var a := Expect(New(id), n, Some(|payload|), Some(maxSize), allocates);
    ExpectProgress(New(id), payload, maxSize, allocates);
    FeedProgress(a, payload, maxSize, {}, indices);
    assert {} + Elements(indices) == Elements(indices);
    GatheredComplete(Feed(a, payload, maxSize, indices).value, payload, maxSize, Elements(indices));
    AllElements(indices, n);
  }

  lemma AllElements(indices: seq<nat>, n: nat)
    requires forall k :: 0 <= k < |indices| ==> indices[k] < n
    ensures Elements(indices) == IndexSet(n) <==> forall i :: 0 <= i < n ==> i in indices
  {
    if forall i :: 0 <= i < n ==> i in indices {
      assert forall i: nat :: i in IndexSet(n) ==> i in indices;
    } else {
      var i :| 0 <= i < n && i !in indices;
      assert i in IndexSet(n) && i !in Elements(indices);
    }
  }

  lemma ElementsStep(got: set<nat>, indices: seq<nat>)
    requires indices != []
    ensures got + Elements(indices) == got + {indices[0]} + Elements(indices[1..])
  {
    assert indices == [indices[0]] + indices[1..];
  }

  lemma {:induction false} FeedProgress(a: Assembly, payload: Bytes, maxSize: nat, got: set<nat>, indices: seq<nat>)
    requires maxSize > 0 && Progress(a, payload, maxSize, got)
    requires forall k :: 0 <= k < |indices| ==> indices[k] < ChunkCount(|payload|, maxSize)
    ensures var r := Feed(a, payload, maxSize, indices);
            r.Ok? && Progress(r.value, payload, maxSize, got + Elements(indices))
    decreases indices
  {
    if indices == [] {
      assert got + Elements(indices) == got;
    } else {
      AddProgress(a, payload, maxSize, got, indices[0]);
      var a' := Add(a, PayloadChunk(a.id, payload, maxSize, indices[0])).value;
      FeedProgress(a', payload, maxSize, got + {indices[0]}, indices[1..]);
      ElementsStep(got, indices);
    }
  }
}
