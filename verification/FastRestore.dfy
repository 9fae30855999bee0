/** The one-pass restorer with fallback against the reference layout. */
module FastRestore {
  import opened Wire
  import opened Values
  import opened Restoration
  import opened Tiling

  /** Every placeholder declares its tile's length. */
  predicate Declares(refs: seq<Ref>, lens: seq<nat>) {
    forall j :: 0 <= j < |refs| ==> refs[j].index < |lens| && lens[refs[j].index] == refs[j].len
  }

  lemma DistinctDeclares(refs: seq<Ref>, lens: seq<nat>)
    requires Distinct(refs) && Covered(refs, lens)
    ensures Declares(refs, lens)
  {
    forall j | 0 <= j < |refs|
      ensures lens[refs[j].index] == refs[j].len
    {
      assert Ref(refs[j].index, lens[refs[j].index]) in refs;
    }
  }

  /** The lengths of segments i .. end-1 from the table. */
  function TableLens(i: nat, end: nat, lengths: map<nat, nat>): (r: seq<nat>)
    requires i <= end
    requires forall k :: i <= k < end ==> k in lengths
    ensures |r| == end - i
    ensures forall k :: i <= k < end ==> r[k - i] == lengths[k]
  {
    seq(end - i, k requires 0 <= k < end - i => lengths[i + k])
  }

  /** The tiles a successful pass and layout used: those taken in order, then those of the table. */
  function UsedLens(refs: seq<Ref>, taken: nat): seq<nat>
    requires taken <= |refs|
    requires forall k :: taken <= k < IndexEnd(refs[taken..]) ==> k in LengthTable(refs[taken..])
  {
    var end := IndexEnd(refs[taken..]);
    LensOf(refs[..taken]) +
    if end <= taken then [] else TableLens(taken, end, LengthTable(refs[taken..]))
  }

  /** What the sequential pass leaves: its in-order prefix taken, its cursor after it. */
  predicate AfterPass(refs: seq<Ref>, left: seq<Ref>, base: nat, size: nat, c: Cursor) {
    && c.next <= |refs|
    && left == refs[c.next..]
    && (forall j :: 0 <= j < c.next ==> refs[j].index == j)
    && c.offset == base + Sum(LensOf(refs[..c.next]))
    && c.offset <= size
    && (c.outOfOrder <==> left != [])
  }

  /** The sequential pass over a frame's envelope. */
  predicate Passed(v: Value, data: Bytes, base: nat, v': Value, c: Cursor) {
    Sequential(v, data, Cursor(base, 0, false)) == Ok((v', c))
  }

  lemma PassResult(v: Value, data: Bytes, base: nat, v': Value, c: Cursor)
    requires base <= |data| && Passed(v, data, base, v', c)
    ensures AfterPass(Refs(v), Refs(v'), base, |data|, c)
  {
    var start := Cursor(base, 0, false);
    SequentialConsumes(v, data, start);
    SequentialInBounds(v, data, start);
    TookFromStart(Refs(v), Refs(v'), base, |data|, c);
  }

  lemma TookFromStart(refs: seq<Ref>, left: seq<Ref>, base: nat, size: nat, c: Cursor)
    requires Took(refs, size, Cursor(base, 0, false), left, c) && c.offset <= size
    ensures AfterPass(refs, left, base, size, c)
  {
    var start := Cursor(base, 0, false);
    ConsumeTakesPrefix(refs, size, start, c);
    ConsumeAdvances(refs, size, start, c, c.next);
  }

  lemma PassFills(v: Value, data: Bytes, base: nat, v': Value, c: Cursor, lens: seq<nat>)
    requires Tiles(lens, base, |data|) && Passed(v, data, base, v', c)
    requires c.next <= |lens| && c.next <= |Refs(v)| && lens[..c.next] == LensOf(Refs(v)[..c.next])
    ensures Fill(v', TileMap(data, base, lens)) == Fill(v, TileMap(data, base, lens))
  {
    assert lens[..0] == [];
    forall j | 0 <= j < c.next
      ensures lens[j] == Refs(v)[j].len
    {
      assert lens[j] == lens[..c.next][j];
    }
    SequentialFills(v, data, Cursor(base, 0, false), base, lens);
  }

  /** The fallback reached past the prefix and found every index up to its end. */
  lemma RemainingReaches(v: Value, data: Bytes, c: Cursor)
    requires c.offset <= |data| && Refs(v) != [] && Remaining(v, data, c).Ok?
    ensures c.next < IndexEnd(Refs(v))
    ensures forall i :: c.next <= i < IndexEnd(Refs(v)) ==> i in LengthTable(Refs(v))
  {
    var refs := Refs(v);
    LayOutKeys(c.next, IndexEnd(refs), c.offset, LengthTable(refs), data, map[]);
    var views := LayOut(c.next, IndexEnd(refs), c.offset, LengthTable(refs), data, map[]).value.0;
    ByIndexFills(v, views, views);
    assert refs[0].index in views;
  }

  /** The lengths continue the tiles up to the cursor with the table's. */
  predicate Continues(refs: seq<Ref>, c: Cursor, base: nat, lens: seq<nat>) {
    && Aligned(c, base, lens)
    && |lens| == IndexEnd(refs)
    && forall i :: c.next <= i < |lens| ==> i in LengthTable(refs) && LengthTable(refs)[i] == lens[i]
  }

  lemma RemainingFills(v: Value, data: Bytes, c: Cursor, base: nat, lens: seq<nat>)
    requires c.offset <= |data| && Continues(Refs(v), c, base, lens) && Remaining(v, data, c).Ok?
    ensures Remaining(v, data, c).value.1 == base + Sum(lens)
    ensures Tiles(lens, base, |data|) ==> Remaining(v, data, c).value.0 == Fill(v, TileMap(data, base, lens))
  {
    var table := LengthTable(Refs(v));
    LayOutSound(c.next, c.offset, table, data, map[], base, lens);
    var views := LayOut(c.next, |lens|, c.offset, table, data, map[]).value.0;
    if Tiles(lens, base, |data|) {
      ByIndexFills(v, views, TileMap(data, base, lens));
    }
  }

  /**
   * Accepted frames tile the payload. For any envelope, duplicate or reordered
   * placeholders included: when the restore succeeds, the segments it used lie
   * back to back from the envelope to the last byte, each segment has a
   * placeholder, every placeholder became its segment, and none is left.
   */
  lemma AcceptedFramesTile(v: Value, data: Bytes, base: nat) returns (lens: seq<nat>)
    requires base <= |data| && Restore(v, data, base).Ok?
    ensures Tiles(lens, base, |data|) && Covered(Refs(v), lens)
    ensures Restore(v, data, base).value == Fill(v, TileMap(data, base, lens))
    ensures LookAlikeFree(Restore(v, data, base).value)
  {
    var (v', c) := Sequential(v, data, Cursor(base, 0, false)).value;
    PassResult(v, data, base, v', c);
    if c.outOfOrder {
      lens := FallbackTiles(v, data, base, v', c);
    } else {
      lens := InOrderTiles(v, data, base, v', c);
    }
    CoveredLeavesNone(v, data, base, lens);
  }

  lemma CoveredLeavesNone(v: Value, data: Bytes, base: nat, lens: seq<nat>)
    requires Tiles(lens, base, |data|) && Covered(Refs(v), lens)
    ensures LookAlikeFree(Fill(v, TileMap(data, base, lens)))
  {
    FillLeavesNone(v, TileMap(data, base, lens));
  }

  lemma InOrderTiles(v: Value, data: Bytes, base: nat, v': Value, c: Cursor) returns (lens: seq<nat>)
    requires base <= |data| && Passed(v, data, base, v', c) && AfterPass(Refs(v), Refs(v'), base, |data|, c)
    requires !c.outOfOrder && Restore(v, data, base).Ok?
    ensures Tiles(lens, base, |data|) && Covered(Refs(v), lens)
    ensures Restore(v, data, base).value == Fill(v, TileMap(data, base, lens))
  {
    lens := LensOf(Refs(v));
    InOrderUsesAll(Refs(v), Refs(v'), base, |data|, c);
    PassFills(v, data, base, v', c, lens);
    FillNothing(v', TileMap(data, base, lens));
    InOrderCovers(Refs(v));
  }

  lemma InOrderUsesAll(refs: seq<Ref>, left: seq<Ref>, base: nat, size: nat, c: Cursor)
    requires AfterPass(refs, left, base, size, c) && !c.outOfOrder && c.offset == size
    ensures c.next == |refs| && left == [] && Tiles(LensOf(refs), base, size)
    ensures LensOf(refs)[..c.next] == LensOf(refs[..c.next])
  {
    assert refs[..c.next] == refs;
  }

  lemma InOrderCovers(refs: seq<Ref>)
    requires forall j :: 0 <= j < |refs| ==> refs[j].index == j
    ensures Covered(refs, LensOf(refs))
  {
    var lens := LensOf(refs);
    forall i | 0 <= i < |lens|
      ensures Ref(i, lens[i]) in refs
    {
      assert refs[i] == Ref(i, lens[i]);
    }
  }

  lemma FallbackTiles(v: Value, data: Bytes, base: nat, v': Value, c: Cursor) returns (lens: seq<nat>)
    requires base <= |data| && Passed(v, data, base, v', c) && AfterPass(Refs(v), Refs(v'), base, |data|, c)
    requires c.outOfOrder && Restore(v, data, base).Ok?
    ensures Tiles(lens, base, |data|) && Covered(Refs(v), lens)
    ensures Restore(v, data, base).value == Fill(v, TileMap(data, base, lens))
  {
    RemainingReaches(v', data, c);
    lens := Used(Refs(v), Refs(v'), base, |data|, c);
    RemainingFills(v', data, c, base, lens);
    PassFills(v, data, base, v', c, lens);
  }

  lemma Used(refs: seq<Ref>, left: seq<Ref>, base: nat, size: nat, c: Cursor) returns (lens: seq<nat>)
    requires AfterPass(refs, left, base, size, c) && c.next < IndexEnd(left)
    requires forall i :: c.next <= i < IndexEnd(left) ==> i in LengthTable(left)
    ensures Continues(left, c, base, lens) && Covered(refs, lens)
    ensures c.next <= |lens| && lens[..c.next] == LensOf(refs[..c.next])
  {
    lens := UsedLens(refs, c.next);
    UsedContinues(refs, base, c);
    UsedCovers(refs, c.next);
  }

  lemma UsedContinues(refs: seq<Ref>, base: nat, c: Cursor)
    requires c.next <= |refs| && c.next < IndexEnd(refs[c.next..])
    requires c.offset == base + Sum(LensOf(refs[..c.next]))
    requires forall k :: c.next <= k < IndexEnd(refs[c.next..]) ==> k in LengthTable(refs[c.next..])
    ensures Continues(refs[c.next..], c, base, UsedLens(refs, c.next))
    ensures UsedLens(refs, c.next)[..c.next] == LensOf(refs[..c.next])
  {
  }

  lemma UsedLensAt(refs: seq<Ref>, k: nat, i: nat)
    requires k <= |refs| && k < IndexEnd(refs[k..]) && i < IndexEnd(refs[k..])
    requires forall j :: k <= j < IndexEnd(refs[k..]) ==> j in LengthTable(refs[k..])
    ensures |UsedLens(refs, k)| == IndexEnd(refs[k..])
    ensures UsedLens(refs, k)[i] == if i < k then refs[i].len else LengthTable(refs[k..])[i]
  {
    var taken, left := LensOf(refs[..k]), TableLens(k, IndexEnd(refs[k..]), LengthTable(refs[k..]));
    assert UsedLens(refs, k) == taken + left;
    if i < k {
      assert (taken + left)[i] == taken[i] == refs[..k][i].len;
    } else {
      assert (taken + left)[i] == left[i - k];
    }
  }

  lemma UsedIsARef(refs: seq<Ref>, k: nat, i: nat)
    requires k <= |refs| && k < IndexEnd(refs[k..]) && i < IndexEnd(refs[k..])
    requires forall j :: 0 <= j < k ==> refs[j].index == j
    requires forall j :: k <= j < IndexEnd(refs[k..]) ==> j in LengthTable(refs[k..])
    ensures Ref(i, UsedLens(refs, k)[i]) in refs
  {
    UsedLensAt(refs, k, i);
    if i < k {
      assert refs[i] == Ref(i, refs[i].len);
    } else {
      LengthTableKeys(refs[k..], i);
      assert forall r :: r in refs[k..] ==> r in refs;
    }
  }

  lemma UsedCovers(refs: seq<Ref>, k: nat)
    requires k <= |refs| && k < IndexEnd(refs[k..])
    requires forall j :: 0 <= j < k ==> refs[j].index == j
    requires forall i :: k <= i < IndexEnd(refs[k..]) ==> i in LengthTable(refs[k..])
    ensures Covered(refs, UsedLens(refs, k))
  {
    forall j | 0 <= j < |refs|
      ensures refs[j].index < |UsedLens(refs, k)|
    {
      assert j >= k ==> refs[j] == refs[k..][j - k];
    }
    forall i | 0 <= i < |UsedLens(refs, k)|
      ensures Ref(i, UsedLens(refs, k)[i]) in refs
    {
      UsedIsARef(refs, k, i);
    }
  }

  // ---------------------------------------------------------------- completeness

  /** Under a layout the pass cannot run out of payload, whatever the traversal order. */
  lemma {:induction false} ConsumeSucceeds(refs: seq<Ref>, size: nat, c: Cursor, base: nat, lens: seq<nat>)
    requires Tiles(lens, base, size) && Declares(refs, lens) && Aligned(c, base, lens)
    ensures Consume(refs, size, c).Ok?
    ensures Aligned(Consume(refs, size, c).value, base, lens)
  {
    if refs != [] {
      assert Declares(refs[1..], lens);
      if c.outOfOrder || refs[0].index != c.next {
        ConsumeSucceeds(refs[1..], size, c.(outOfOrder := true), base, lens);
      } else {
        SumPrefix(lens, c.next);
        ConsumeSucceeds(refs[1..], size, Cursor(c.offset + refs[0].len, c.next + 1, false), base, lens);
      }
    }
  }

  /** For distinct indices a layout is enough for the restore to succeed. */
  lemma LayoutAccepted(v: Value, data: Bytes, base: nat, lens: seq<nat>)
    requires Tiles(lens, base, |data|) && Covered(Refs(v), lens) && Distinct(Refs(v))
    ensures Restore(v, data, base).Ok?
  {
    var v', c := PassSucceeds(v, data, base, lens);
    if c.outOfOrder {
      FallbackAccepted(Refs(v), c.next, lens);
      RemainingSucceeds(v', data, c, base, lens);
    } else {
      InOrderEndsPayload(Refs(v), base, |data|, c, lens);
    }
  }

  lemma PassSucceeds(v: Value, data: Bytes, base: nat, lens: seq<nat>) returns (v': Value, c: Cursor)
    requires Tiles(lens, base, |data|) && Covered(Refs(v), lens) && Distinct(Refs(v))
    ensures Passed(v, data, base, v', c) && AfterPass(Refs(v), Refs(v'), base, |data|, c)
    ensures Aligned(c, base, lens)
  {
    var start := Cursor(base, 0, false);
    DistinctDeclares(Refs(v), lens);
    assert lens[..0] == [];
    ConsumeSucceeds(Refs(v), |data|, start, base, lens);
    SequentialConsumes(v, data, start);
    v', c := Sequential(v, data, start).value.0, Sequential(v, data, start).value.1;
    PassResult(v, data, base, v', c);
  }

  lemma InOrderEndsPayload(refs: seq<Ref>, base: nat, size: nat, c: Cursor, lens: seq<nat>)
    requires Tiles(lens, base, size) && Covered(refs, lens) && Aligned(c, base, lens)
    requires AfterPass(refs, [], base, size, c)
    ensures c.offset == size
  {
    assert c.next == |refs|;
    AllInOrder(refs, lens);
    assert lens[..c.next] == lens;
  }

  lemma AllInOrder(refs: seq<Ref>, lens: seq<nat>)
    requires Covered(refs, lens)
    requires forall j :: 0 <= j < |refs| ==> refs[j].index == j
    ensures |refs| == |lens|
  {
    if lens != [] {
      assert Ref(|lens| - 1, lens[|lens| - 1]) in refs;
    }
    if refs != [] {
      assert refs[|refs| - 1].index < |lens|;
    }
  }

  lemma RemainingSucceeds(v: Value, data: Bytes, c: Cursor, base: nat, lens: seq<nat>)
    requires Tiles(lens, base, |data|) && c.offset <= |data| && Continues(Refs(v), c, base, lens)
    requires forall j :: 0 <= j < |Refs(v)| ==> c.next <= Refs(v)[j].index
    ensures Remaining(v, data, c).Ok? && Remaining(v, data, c).value.1 == |data|
  {
    var table := LengthTable(Refs(v));
    LayOutComplete(c.next, c.offset, table, data, map[], base, lens);
    LayOutSound(c.next, c.offset, table, data, map[], base, lens);
    var views := LayOut(c.next, |lens|, c.offset, table, data, map[]).value.0;
    ByIndexFills(v, views, views);
  }

  /** After an in-order prefix of k, the placeholders left over are exactly those of segments k and above. */
  lemma FallbackAccepted(refs: seq<Ref>, k: nat, lens: seq<nat>)
    requires Covered(refs, lens) && Distinct(refs) && k < |refs|
    requires forall j :: 0 <= j < k ==> refs[j].index == j
    ensures IndexEnd(refs[k..]) == |lens| && k <= |lens|
    ensures forall i :: k <= i < |lens| ==> i in LengthTable(refs[k..]) && LengthTable(refs[k..])[i] == lens[i]
    ensures forall j :: 0 <= j < |refs[k..]| ==> k <= refs[k..][j].index < |lens|
  {
    var left := refs[k..];
    DistinctDeclares(refs, lens);
    forall j | 0 <= j < |left|
      ensures k <= left[j].index < |lens| && lens[left[j].index] == left[j].len
    {
      assert left[j] == refs[k + j];
      var m := left[j].index;
      assert refs[if m < |refs| then m else 0] in refs;
    }
    forall i | k <= i < |lens|
      ensures i in LengthTable(left) && LengthTable(left)[i] == lens[i]
    {
      assert Ref(i, lens[i]) in refs;
      var j :| 0 <= j < |refs| && refs[j] == Ref(i, lens[i]);
      assert left[j - k].index == i;
      LengthTableKeys(left, i);
    }
    assert left[0].index < |lens|;
    LengthTableKeys(left, |lens| - 1);
  }

  /** For distinct indices the fast restorer is the reference: same frames accepted, same tree. */
  lemma FastIsReference(v: Value, data: Bytes, base: nat)
    requires base <= |data| && Distinct(Refs(v))
    ensures Restore(v, data, base).Ok? <==> Reference(v, data, base).Some?
    ensures Restore(v, data, base).Ok? ==> Restore(v, data, base).value == Reference(v, data, base).value
  {
    if Restore(v, data, base).Ok? {
      var lens := AcceptedFramesTile(v, data, base);
      ReferenceIs(v, data, base, lens);
    }
    if HasLayout(Refs(v), base, |data|) {
      var lens :| Tiles(lens, base, |data|) && Covered(Refs(v), lens);
      LayoutAccepted(v, data, base, lens);
    }
  }
}
