/**
 * Chunks without an announcement: the assembler learns their number from the
 * mark on the last one (python/camera_ui_rpc/chunking.py, node/src/chunking.ts).
 */
module MarkedChunks {
  import opened Wire
  import opened Chunks

  function Marked(id: string, pieces: seq<Bytes>, i: nat): Chunk
    requires i < |pieces|
  {
    Chunk(id, i, pieces[i], i + 1 == |pieces|)
  }

  function FeedMarked(a: Assembly, pieces: seq<Bytes>, indices: seq<nat>): Result<Assembly>
    requires forall k :: 0 <= k < |indices| ==> indices[k] < |pieces|
    decreases indices
  {
    if indices == [] then Ok(a)
    else
      match Add(a, Marked(a.id, pieces, indices[0]))
      case Err(e) => Err(e)
      case Ok(a') => FeedMarked(a', pieces, indices[1..])
  }

  /** The pieces `got` are kept apart; their number is known once the last has come. */
  predicate Collected(a: Assembly, pieces: seq<Bytes>, got: set<nat>) {
    && a.buffer.None? && a.received == got && a.temp.Keys == got
    && (forall i :: i in got ==> i < |pieces| && a.temp[i] == pieces[i])
    && a.total == if pieces != [] && |pieces| - 1 in got then Some(|pieces|) else None
  }

  lemma MarkedCollects(a: Assembly, pieces: seq<Bytes>, got: set<nat>, i: nat)
    requires Collected(a, pieces, got) && i < |pieces|
    ensures var r := Add(a, Marked(a.id, pieces, i));
            r.Ok? && r.value.id == a.id && Collected(r.value, pieces, got + {i})
  {
  }

  lemma {:induction false} FeedCollects(a: Assembly, pieces: seq<Bytes>, got: set<nat>, indices: seq<nat>)
    requires Collected(a, pieces, got) && forall k :: 0 <= k < |indices| ==> indices[k] < |pieces|
    ensures var r := FeedMarked(a, pieces, indices); r.Ok? && Collected(r.value, pieces, got + Elements(indices))
    decreases indices
  {
    if indices == [] {
      assert got + Elements(indices) == got;
    } else {
      MarkedCollects(a, pieces, got, indices[0]);
      var a' := Add(a, Marked(a.id, pieces, indices[0])).value;
      FeedCollects(a', pieces, got + {indices[0]}, indices[1..]);
      ElementsStep(got, indices);
    }
  }

  lemma {:induction false} JoinTempJoins(temp: map<nat, Bytes>, pieces: seq<Bytes>, i: nat)
    requires i <= |pieces| && forall k: nat :: k < |pieces| ==> k in temp && temp[k] == pieces[k]
    ensures JoinTemp(temp, i, |pieces|) == Ok(Join(pieces[i..]))
    decreases |pieces| - i
  {
    if i < |pieces| {
      JoinTempJoins(temp, pieces, i + 1);
      assert pieces[i..][0] == pieces[i] && pieces[i..][1..] == pieces[i + 1..];
    }
  }

  lemma CollectedComplete(a: Assembly, pieces: seq<Bytes>, got: set<nat>)
    requires Collected(a, pieces, got) && pieces != []
    ensures Complete(a) <==> got == IndexSet(|pieces|)
    ensures Complete(a) ==> Contents(a) == Ok(Join(pieces))
  {
    assert got <= IndexSet(|pieces|);
    if Complete(a) {
      SubsetOfSameSize(got, IndexSet(|pieces|));
      JoinTempJoins(a.temp, pieces, 0);
      assert pieces[0..] == pieces;
    }
  }

  /**
   * The mark is enough: an assembler that was announced nothing is complete
   * exactly when every marked piece has come, in any order and with any
   * repetition, and then holds them joined.
   */
  lemma MarkedReassembles(id: string, pieces: seq<Bytes>, indices: seq<nat>)
    requires pieces != [] && forall k :: 0 <= k < |indices| ==> indices[k] < |pieces|
    ensures var r := FeedMarked(New(id), pieces, indices);
            && r.Ok?
            && (Complete(r.value) <==> forall i :: 0 <= i < |pieces| ==> i in indices)
            && (Complete(r.value) ==> Contents(r.value) == Ok(Join(pieces)))
  {
    FeedCollects(New(id), pieces, {}, indices);
    assert {} + Elements(indices) == Elements(indices);
    CollectedComplete(FeedMarked(New(id), pieces, indices).value, pieces, Elements(indices));
    AllElements(indices, |pieces|);
  }
}
