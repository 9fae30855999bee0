/**
 * Transfers whose header carries no chunk size. The assembler then works with
 * the size a pooled one kept, with the size of chunk 0 once it has come, or
 * with each chunk's own size (python/camera_ui_rpc/chunking.py).
 */
module Headerless {
  import opened Wire
  import opened Chunks
  import opened Transfers

  /** The assembler of such a transfer; `leftover` is what a pooled one kept. */
  function Headerless(id: string, payload: Bytes, maxSize: nat, leftover: Option<nat>, allocates: bool): Assembly
    requires maxSize > 0
  {
    Fresh(Announcement(id, ChunkCount(|payload|, maxSize), Some(|payload|), None, 0, 0, allocates, leftover))
  }

  /** With a chunk size in the header a pooled assembler starts like a new one. */
  lemma HeaderSizeWins(a: Announcement)
    requires a.chunkSize.Some?
    ensures Fresh(a) == Fresh(a.(leftover := None))
  {
  }

  function LastSize(payload: Bytes, maxSize: nat): nat
    requires maxSize > 0 && payload != []
  {
    var n := ChunkCount(|payload|, maxSize);
    ChunkStart(|payload|, maxSize, 0);
    |ChunkBytes(payload, maxSize, n - 1)|
  }

  /** Chunk 0 comes before every arrival of the last chunk. */
  predicate FirstLeads(indices: seq<nat>, last: nat) {
    exists j :: 0 <= j < |indices| && indices[j] == 0 && last !in indices[..j]
  }

  /** Some arrival of the last chunk follows one of chunk 0. */
  predicate LastFollows(indices: seq<nat>, last: nat) {
    exists j, l :: 0 <= j < l < |indices| && indices[j] == 0 && indices[l] == last
  }

  /**
   * When every chunk is put in its place: there is no buffer, or at most one
   * chunk; the size kept is the sender's; none is kept and the last chunk is a
   * full one; or none is kept and chunk 0 comes before the last chunk.
   */
  predicate Placed(kept: Option<nat>, buffered: bool, size: nat, maxSize: nat, indices: seq<nat>)
    requires maxSize > 0
  {
    var n := ChunkCount(size, maxSize);
    || !buffered || n <= 1
    || kept == Some(maxSize)
    || ((kept.None? || kept == Some(0)) && size == n * maxSize)
    || (kept.None? && FirstLeads(indices, n - 1))
  }

  /** Sizes of the chunks: all full but perhaps the last. */
  lemma ChunkSizes(payload: Bytes, maxSize: nat, i: nat)
    requires maxSize > 0 && i < ChunkCount(|payload|, maxSize)
    ensures var n := ChunkCount(|payload|, maxSize);
            var size := |ChunkBytes(payload, maxSize, i)|;
            && payload != [] && 0 < size <= maxSize
            && (i < n - 1 ==> size == maxSize) && (i == n - 1 ==> i * maxSize + size == |payload|)
            && (i == n - 1 ==> (size == maxSize <==> |payload| == n * maxSize))
  {
    var n := ChunkCount(|payload|, maxSize);
    ChunkStart(|payload|, maxSize, i);
    ChunkStart(|payload|, maxSize, i + 1);
    Scale(i, i, maxSize);
  }

  // ---------------------------------------------------------------- enough

  lemma PlacedNow(a: Assembly, payload: Bytes, maxSize: nat, indices: seq<nat>)
    requires maxSize > 0 && indices != [] && indices[0] < ChunkCount(|payload|, maxSize)
    requires a.total == Some(ChunkCount(|payload|, maxSize))
    requires Placed(a.chunkSize, a.buffer.Some?, |payload|, maxSize, indices)
    ensures InPlace(a, payload, maxSize, indices[0])
    ensures var learned := LearnedSize(a, PayloadChunk(a.id, payload, maxSize, indices[0]));
            Placed(learned, a.buffer.Some?, |payload|, maxSize, indices[1..])
  {
    var n, i := ChunkCount(|payload|, maxSize), indices[0];
    ChunkSizes(payload, maxSize, i);
    if a.chunkSize.None? && i != 0 && FirstLeads(indices, n - 1) {
      var j :| 0 <= j < |indices| && indices[j] == 0 && n - 1 !in indices[..j];
      assert indices[..j][0] == i;
      assert indices[1..][j - 1] == 0 && indices[1..][..j - 1] == indices[..j][1..];
    }
  }

  lemma {:induction false} FeedGathers(a: Assembly, payload: Bytes, maxSize: nat, got: set<nat>, indices: seq<nat>)
    requires maxSize > 0 && Gathered(a, payload, maxSize, got)
    requires forall k :: 0 <= k < |indices| ==> indices[k] < ChunkCount(|payload|, maxSize)
    requires Placed(a.chunkSize, a.buffer.Some?, |payload|, maxSize, indices)
    ensures var r := Feed(a, payload, maxSize, indices);
            r.Ok? && Gathered(r.value, payload, maxSize, got + Elements(indices))
    decreases indices
  {
    if indices == [] {
      assert got + Elements(indices) == got;
    } else {
      PlacedNow(a, payload, maxSize, indices);
      AddGathers(a, payload, maxSize, got, indices[0]);
      var a' := Add(a, PayloadChunk(a.id, payload, maxSize, indices[0])).value;
      FeedGathers(a', payload, maxSize, got + {indices[0]}, indices[1..]);
      ElementsStep(got, indices);
    }
  }

  lemma AllPlaced(a: Assembly, payload: Bytes, maxSize: nat, indices: seq<nat>)
    requires maxSize > 0 && Gathered(a, payload, maxSize, {})
    requires Placed(a.chunkSize, a.buffer.Some?, |payload|, maxSize, indices)
    requires forall k :: 0 <= k < |indices| ==> indices[k] < ChunkCount(|payload|, maxSize)
    requires forall i :: 0 <= i < ChunkCount(|payload|, maxSize) ==> i in indices
    ensures var r := Feed(a, payload, maxSize, indices);
            r.Ok? && Complete(r.value) && Contents(r.value) == Ok(payload)
  {
    FeedGathers(a, payload, maxSize, {}, indices);
    assert {} + Elements(indices) == Elements(indices);
    var fed := Feed(a, payload, maxSize, indices).value;
    GatheredComplete(fed, payload, maxSize, Elements(indices));
    AllElements(indices, ChunkCount(|payload|, maxSize));
  }

  /** Where every chunk is put in its place the payload is reassembled, for any payload and any repetition. */
  lemma HeaderlessReassembles(
      id: string, payload: Bytes, maxSize: nat, leftover: Option<nat>, allocates: bool, indices: seq<nat>)
    requires maxSize > 0 && Placed(leftover, allocates, |payload|, maxSize, indices)
    requires forall k :: 0 <= k < |indices| ==> indices[k] < ChunkCount(|payload|, maxSize)
    requires forall i :: 0 <= i < ChunkCount(|payload|, maxSize) ==> i in indices
    ensures var r := Feed(Headerless(id, payload, maxSize, leftover, allocates), payload, maxSize, indices);
            r.Ok? && Complete(r.value) && Contents(r.value) == Ok(payload)
  {
    AllPlaced(Headerless(id, payload, maxSize, leftover, allocates), payload, maxSize, indices);
  }

  /**
   * A header without a size, or with size 0, leaves no buffer: the chunks are
   * kept apart and joined, whatever chunk size is announced or kept.
   */
  lemma SizelessReassembles(a: Announcement, payload: Bytes, maxSize: nat, indices: seq<nat>)
    requires maxSize > 0 && a.count == ChunkCount(|payload|, maxSize)
    requires a.totalSize.None? || a.totalSize == Some(0)
    requires forall k :: 0 <= k < |indices| ==> indices[k] < a.count
    requires forall i :: 0 <= i < a.count ==> i in indices
    ensures var r := Feed(Fresh(a), payload, maxSize, indices);
            r.Ok? && Complete(r.value) && Contents(r.value) == Ok(payload)
  {
    AllPlaced(Fresh(a), payload, maxSize, indices);
  }

  /** The size announced is that of the buffer, and stays so under any chunk. */
  lemma BufferHasAnnouncedSize(a: Announcement, chunk: Chunk)
    ensures Fresh(a).buffer.Some? <==> a.allocates && a.totalSize.Some? && a.totalSize.value > 0
    ensures Fresh(a).buffer.Some? ==> |Fresh(a).buffer.value| == Fresh(a).totalSize == a.totalSize.value
    ensures Fresh(a).buffer.Some? && Add(Fresh(a), chunk).Ok? ==>
              var fed := Add(Fresh(a), chunk).value;
              fed.buffer.Some? && |fed.buffer.value| == fed.totalSize == a.totalSize.value
  {
  }

  // ---------------------------------------------------------------- and needed

  /** A position of the payload that no chunk will be written to. */
  predicate Missed(kept: Option<nat>, payload: Bytes, maxSize: nat, indices: seq<nat>, q: nat)
    requires maxSize > 0
  {
    var n := ChunkCount(|payload|, maxSize);
    && n >= 2
    && if kept.Some? && kept.value > maxSize then q == maxSize
       else
         && q == |payload| - 1
         && match kept
            case Some(k) =>
              if k == 0 then LastSize(payload, maxSize) < maxSize else k == maxSize ==> n - 1 !in indices
            case None => LastSize(payload, maxSize) < maxSize && !LastFollows(indices, n - 1)
  }

  /** Chunk i, put at `at`, stays clear of position q. */
  predicate Clear(at: nat, size: nat, q: nat) {
    q < at || at + size <= q
  }

  /** A kept size below the sender's leaves the last position out. */
  lemma ClearOfShort(i: nat, n: nat, k: nat, m: nat, size: nat, last: nat)
    requires i < n && n >= 2 && k < m && last > 0 && size == (if i < n - 1 then m else last)
    ensures i * k + size <= (n - 1) * m + last - 1
  {
    Scale(i, n - 1, k);
    Widen(n - 1, k, m);
    if i < n - 1 {
      Scale(i, n - 2, k);
      Widen(n - 2, k, m);
      Scale(n - 2, n - 1, m);
    }
  }

  lemma Widen(a: nat, k: nat, m: nat)
    requires k < m
    ensures a * k <= a * m && (a > 0 ==> a * k < a * m)
  {
  }

  /** One above it leaves the start of chunk 1 out. */
  lemma ClearOfLong(i: nat, k: nat, m: nat, size: nat)
    requires k > m && size <= m
    ensures Clear(i * k, size, m)
  {
    if i > 0 {
      Scale(1, i, k);
    }
  }

  /** A short last chunk at a multiple of its own size leaves the last position out. */
  lemma ClearOfOwn(i: nat, n: nat, m: nat, size: nat, last: nat)
    requires i < n && n >= 2 && 0 < last < m && size == (if i < n - 1 then m else last)
    ensures i * size + size <= (n - 1) * m + last - 1
  {
    if i < n - 1 {
      ClearOfKnown(i, n, m);
    } else {
      Widen(n - 1, last, m);
    }
  }

  lemma ClearOfKnown(i: nat, n: nat, m: nat)
    requires i < n - 1
    ensures i * m + m <= (n - 1) * m
  {
    Scale(i + 1, n - 1, m);
    Scale(i, i, m);
  }

  lemma MissedNow(a: Assembly, payload: Bytes, maxSize: nat, indices: seq<nat>, q: nat)
    requires maxSize > 0 && indices != [] && indices[0] < ChunkCount(|payload|, maxSize)
    requires a.total == Some(ChunkCount(|payload|, maxSize)) && Missed(a.chunkSize, payload, maxSize, indices, q)
    ensures var chunk := PayloadChunk(a.id, payload, maxSize, indices[0]);
            Clear(indices[0] * EffectiveSize(a, chunk), |chunk.data|, q)
  {
    var n, i := ChunkCount(|payload|, maxSize), indices[0];
    var size, last := |ChunkBytes(payload, maxSize, i)|, |ChunkBytes(payload, maxSize, n - 1)|;
    ChunkSizes(payload, maxSize, i);
    ChunkSizes(payload, maxSize, n - 1);
    match a.chunkSize
    case Some(k) =>
      if k > maxSize {
        ClearOfLong(i, k, maxSize, size);
      } else if k == 0 {
        ClearOfOwn(i, n, maxSize, size, last);
      } else if k < maxSize {
        ClearOfShort(i, n, k, maxSize, size, last);
      } else {
        ClearOfKnown(i, n, maxSize);
      }
    case None =>
      if i < n - 1 {
        ClearOfKnown(i, n, maxSize);
      } else {
        ClearOfOwn(i, n, maxSize, size, last);
      }
  }

  lemma MissedLater(a: Assembly, payload: Bytes, maxSize: nat, indices: seq<nat>, q: nat)
    requires maxSize > 0 && indices != [] && indices[0] < ChunkCount(|payload|, maxSize)
    requires a.total == Some(ChunkCount(|payload|, maxSize)) && Missed(a.chunkSize, payload, maxSize, indices, q)
    ensures Missed(LearnedSize(a, PayloadChunk(a.id, payload, maxSize, indices[0])), payload, maxSize, indices[1..], q)
  {
    var n := ChunkCount(|payload|, maxSize);
    ChunkSizes(payload, maxSize, indices[0]);
    LaterFollows(indices, n - 1);
  }

  lemma LaterFollows(indices: seq<nat>, last: nat)
    requires indices != []
    ensures LastFollows(indices[1..], last) ==> LastFollows(indices, last)
    ensures indices[0] == 0 && last in indices[1..] ==> LastFollows(indices, last)
  {
    if j, l :| 0 <= j < l < |indices[1..]| && indices[1..][j] == 0 && indices[1..][l] == last {
      assert indices[j + 1] == 0 && indices[l + 1] == last;
    }
    if indices[0] == 0 && last in indices[1..] {
      var l :| 0 <= l < |indices[1..]| && indices[1..][l] == last;
      assert indices[0] == 0 && indices[l + 1] == last;
    }
  }

  /** Without repetition chunk 0 leads or the last chunk does not follow it. */
  lemma LeadsOrNotFollows(indices: seq<nat>, last: nat)
    requires forall j, k :: 0 <= j < k < |indices| ==> indices[j] != indices[k]
    ensures LastFollows(indices, last) ==> FirstLeads(indices, last)
  {
    if j, l :| 0 <= j < l < |indices| && indices[j] == 0 && indices[l] == last {
      forall k | 0 <= k < j
        ensures indices[..j][k] != last
      {
        assert indices[k] != indices[l];
      }
      assert indices[j] == 0 && last !in indices[..j];
    }
  }

  lemma {:induction false} FeedMisses(a: Assembly, payload: Bytes, maxSize: nat, indices: seq<nat>, q: nat)
    requires maxSize > 0 && a.total == Some(ChunkCount(|payload|, maxSize))
    requires forall k :: 0 <= k < |indices| ==> indices[k] < ChunkCount(|payload|, maxSize)
    requires a.buffer.Some? && q < |a.buffer.value| && Missed(a.chunkSize, payload, maxSize, indices, q)
    ensures var r := Feed(a, payload, maxSize, indices);
            && r.Ok? && r.value.buffer.Some? && |r.value.buffer.value| == |a.buffer.value|
            && r.value.buffer.value[q] == a.buffer.value[q]
            && r.value.total == a.total && r.value.received == a.received + Elements(indices)
    decreases indices
  {
    if indices == [] {
      assert a.received + Elements(indices) == a.received;
    } else {
      MissedNow(a, payload, maxSize, indices, q);
      MissedLater(a, payload, maxSize, indices, q);
      var a' := Add(a, PayloadChunk(a.id, payload, maxSize, indices[0])).value;
      FeedMisses(a', payload, maxSize, indices[1..], q);
      ElementsStep(a.received, indices);
    }
  }

  /** A transfer completes with a zero byte left in the payload. */
  lemma HeaderlessFails(
      id: string, payload: Bytes, maxSize: nat, leftover: Option<nat>, indices: seq<nat>, q: nat)
    requires maxSize > 0 && q < |payload| && payload[q] != 0 && Missed(leftover, payload, maxSize, indices, q)
    requires forall k :: 0 <= k < |indices| ==> indices[k] < ChunkCount(|payload|, maxSize)
    requires forall i :: 0 <= i < ChunkCount(|payload|, maxSize) ==> i in indices
    ensures var r := Feed(Headerless(id, payload, maxSize, leftover, true), payload, maxSize, indices);
            r.Ok? && Complete(r.value) && Contents(r.value) != Ok(payload)
  {
    var a := Headerless(id, payload, maxSize, leftover, true);
    FeedMisses(a, payload, maxSize, indices, q);
    assert {} + Elements(indices) == Elements(indices);
    AllElements(indices, ChunkCount(|payload|, maxSize));
  }

  /** Without repetition, chunks that are not all put in their place leave a position out. */
  lemma NotPlacedMisses(leftover: Option<nat>, payload: Bytes, maxSize: nat, indices: seq<nat>) returns (q: nat)
    requires maxSize > 0 && !Placed(leftover, true, |payload|, maxSize, indices)
    requires forall j, k :: 0 <= j < k < |indices| ==> indices[j] != indices[k]
    ensures q < |payload| && Missed(leftover, payload, maxSize, indices, q)
  {
    var n := ChunkCount(|payload|, maxSize);
    ChunkSizes(payload, maxSize, n - 1);
    ChunkStart(|payload|, maxSize, 1);
    q := if leftover.Some? && leftover.value > maxSize then maxSize else |payload| - 1;
    LeadsOrNotFollows(indices, n - 1);
  }

  /** Every chunk arrives, and only once. */
  predicate OnceEach(indices: seq<nat>, n: nat) {
    && (forall k :: 0 <= k < |indices| ==> indices[k] < n)
    && (forall i :: 0 <= i < n ==> i in indices)
    && (forall j, k :: 0 <= j < k < |indices| ==> indices[j] != indices[k])
  }

  /**
   * When a header without a chunk size is enough, exactly: the chunks of a
   * payload without zero bytes, each once and in any order, are reassembled if
   * and only if each is put in its place. A zero byte can hide the hole.
   */
  lemma HeaderlessReassemblesIff(
      id: string, payload: Bytes, maxSize: nat, leftover: Option<nat>, allocates: bool, indices: seq<nat>)
    requires maxSize > 0 && forall q :: 0 <= q < |payload| ==> payload[q] != 0
    requires OnceEach(indices, ChunkCount(|payload|, maxSize))
    ensures var r := Feed(Headerless(id, payload, maxSize, leftover, allocates), payload, maxSize, indices);
            && r.Ok? && Complete(r.value)
            && (Contents(r.value) == Ok(payload) <==> Placed(leftover, allocates, |payload|, maxSize, indices))
  {
    if Placed(leftover, allocates, |payload|, maxSize, indices) {
      HeaderlessReassembles(id, payload, maxSize, leftover, allocates, indices);
    } else {
      var q := NotPlacedMisses(leftover, payload, maxSize, indices);
      HeaderlessFails(id, payload, maxSize, leftover, indices, q);
    }
  }

  predicate Reassembled(
      id: string, payload: Bytes, maxSize: nat, leftover: Option<nat>, allocates: bool, indices: seq<nat>)
    requires maxSize > 0
  {
    var r := Feed(Headerless(id, payload, maxSize, leftover, allocates), payload, maxSize, indices);
    r.Ok? && Complete(r.value) && Contents(r.value) == Ok(payload)
  }

  /** Every payload of the size is reassembled. */
  ghost predicate AllReassembled(
      id: string, size: nat, maxSize: nat, leftover: Option<nat>, allocates: bool, indices: seq<nat>)
    requires maxSize > 0
  {
    forall other: Bytes | |other| == size :: Reassembled(id, other, maxSize, leftover, allocates, indices)
  }

  lemma PlacedReassembles(
      id: string, size: nat, maxSize: nat, leftover: Option<nat>, allocates: bool, indices: seq<nat>)
    requires maxSize > 0 && OnceEach(indices, ChunkCount(size, maxSize))
    requires Placed(leftover, allocates, size, maxSize, indices)
    ensures AllReassembled(id, size, maxSize, leftover, allocates, indices)
  {
    forall other: Bytes | |other| == size
      ensures Reassembled(id, other, maxSize, leftover, allocates, indices)
    {
      HeaderlessReassembles(id, other, maxSize, leftover, allocates, indices);
    }
  }

  /** Of all payloads of a size: an arrival order reassembles every one of them if and only if it places the chunks. */
  lemma EveryPayloadReassemblesIff(
      id: string, size: nat, maxSize: nat, leftover: Option<nat>, allocates: bool, indices: seq<nat>)
    requires maxSize > 0 && OnceEach(indices, ChunkCount(size, maxSize))
    ensures AllReassembled(id, size, maxSize, leftover, allocates, indices)
            <==> Placed(leftover, allocates, size, maxSize, indices)
  {
    if Placed(leftover, allocates, size, maxSize, indices) {
      PlacedReassembles(id, size, maxSize, leftover, allocates, indices);
    } else {
      var ones: Bytes := seq(size, i => 1);
      HeaderlessReassemblesIff(id, ones, maxSize, leftover, allocates, indices);
      assert !Reassembled(id, ones, maxSize, leftover, allocates, indices);
    }
  }

  /** A concrete case: the size 3 kept by a pooled assembler misplaces a chunk that a new one places right. */
  lemma PooledMisplaces(id: string)
    ensures var a := Announcement(id, 2, Some(4), None, 0, 0, true, Some(3));
            var r := Feed(Fresh(a), [1, 2, 3, 4], 2, [0, 1]);
            r.Ok? && Complete(r.value) && Contents(r.value) == Ok([1, 2, 0, 3])
    ensures Reassembled(id, [1, 2, 3, 4], 2, None, true, [0, 1])
  {
    KeptSizeMisplaces(id);
    assert [0, 1][0] == 0;
    assert FirstLeads([0, 1], 1);
    HeaderlessReassembles(id, [1, 2, 3, 4], 2, None, true, [0, 1]);
  }

  lemma KeptSizeMisplaces(id: string)
    ensures var a := Announcement(id, 2, Some(4), None, 0, 0, true, Some(3));
            var r := Feed(Fresh(a), [1, 2, 3, 4], 2, [0, 1]);
            r.Ok? && Complete(r.value) && Contents(r.value) == Ok([1, 2, 0, 3])
  {
    var payload: Bytes := [1, 2, 3, 4];
    var c0, c1 := PayloadChunk(id, payload, 2, 0), PayloadChunk(id, payload, 2, 1);
    assert c0.data == [1, 2] && c1.data == [3, 4];
    assert {0, 1} == {} + {0} + {1};
    assert [0, 1][1..] == [1] && [1][1..] == [];
    var pooled := Fresh(Announcement(id, 2, Some(4), None, 0, 0, true, Some(3)));
    assert pooled.buffer.value == [0, 0, 0, 0];
    var p0 := Add(pooled, c0).value;
    assert p0.buffer.value == [1, 2, 0, 0];
    var p1 := Add(p0, c1).value;
    assert p1.buffer.value == [1, 2, 0, 3] && p1.received == {0, 1};
    assert Feed(p0, payload, 2, [1]) == Feed(p1, payload, 2, []);
  }
}
