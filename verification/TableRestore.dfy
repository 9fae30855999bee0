/** Go's restorer: collect the placeholders in any order, table them, lay the segments out (go/codec_message.go). */
module TableRestore {
  import opened Wire
  import opened Values
  import opened Restoration
  import opened Tiling
  import FastRestore

  const MAX_INT32: nat := 0x7FFF_FFFF

  /** Go takes a map for a placeholder only if both numbers fit an int32. */
  predicate InRange(ref: Ref) {
    ref.index <= MAX_INT32 && ref.len <= MAX_INT32
  }

  predicate AllInRange(refs: seq<Ref>) {
    forall j :: 0 <= j < |refs| ==> InRange(refs[j])
  }

  function Recognized(refs: seq<Ref>): seq<Ref> {
    if refs == [] then []
    else if InRange(refs[0]) then [refs[0]] + Recognized(refs[1..])
    else Recognized(refs[1..])
  }

  /** Go recognizes exactly the placeholders whose two numbers are below 2^31, in their order. */
  lemma {:induction false} RecognizedAre(refs: seq<Ref>)
    ensures forall r :: r in Recognized(refs) <==> r in refs && r.index < 0x8000_0000 && r.len < 0x8000_0000
    ensures (forall j :: 0 <= j < |refs| ==> refs[j].index < 0x8000_0000 && refs[j].len < 0x8000_0000) ==>
              Recognized(refs) == refs
  {
    if refs != [] {
      RecognizedAre(refs[1..]);
      assert refs == [refs[0]] + refs[1..];
    }
  }

  /** The setters at work: only recognized placeholders are replaced. */
  function SetViews(v: Value, views: map<nat, Bytes>): Value
    decreases v, 1
  {
    if IsPlaceholder(v) then
      if InRange(RefOf(v)) && RefOf(v).index in views then Bin(views[RefOf(v).index]) else v
    else if IsContainer(v) then WithItems(v, SetViewsAll(v.items, views))
    else v
  }

  function SetViewsAll(items: seq<Value>, views: map<nat, Bytes>): (r: seq<Value>)
    ensures |r| == |items|
    ensures forall i :: 0 <= i < |r| ==> r[i] == SetViews(items[i], views)
    decreases items, 0
  {
    if items == [] then [] else [SetViews(items[0], views)] + SetViewsAll(items[1..], views)
  }

  /** What Go's restore returns: the layout of the recognized placeholders, if there is one. */
  ghost function Restored(v: Value, data: Bytes, base: nat): Option<Value> {
    var refs := Recognized(Refs(v));
    if HasLayout(refs, base, |data|) then
      var lens :| Tiles(lens, base, |data|) && Covered(refs, lens);
      Some(SetViews(v, TileMap(data, base, lens)))
    else None
  }

  lemma RestoredIs(v: Value, data: Bytes, base: nat, lens: seq<nat>)
    requires Distinct(Recognized(Refs(v)))
    requires Tiles(lens, base, |data|) && Covered(Recognized(Refs(v)), lens)
    ensures Restored(v, data, base) == Some(SetViews(v, TileMap(data, base, lens)))
  {
    var refs := Recognized(Refs(v));
    var chosen :| Tiles(chosen, base, |data|) && Covered(refs, chosen)
      && Restored(v, data, base) == Some(SetViews(v, TileMap(data, base, chosen)));
    LayoutUnique(refs, lens, chosen);
  }

  /** `refs` lists the recognized placeholders in whatever order map iteration produced. */
  predicate Visits(refs: seq<Ref>, v: Value) {
    multiset(refs) == multiset(Recognized(Refs(v))) && Distinct(refs)
  }

  lemma VisitsSame(refs: seq<Ref>, v: Value)
    requires Visits(refs, v)
    ensures forall r :: r in refs <==> r in Recognized(Refs(v))
    ensures forall lens :: Covered(refs, lens) <==> Covered(Recognized(Refs(v)), lens)
    ensures Distinct(Recognized(Refs(v)))
  {
    var want := Recognized(Refs(v));
    forall r
      ensures r in refs <==> r in want
    {
      assert r in refs <==> r in multiset(refs);
    }
    forall lens
      ensures Covered(refs, lens) <==> Covered(want, lens)
    {
      assert (forall j :: 0 <= j < |refs| ==> refs[j].index < |lens|) <==> (forall r :: r in refs ==> r.index < |lens|);
      assert (forall j :: 0 <= j < |want| ==> want[j].index < |lens|) <==> (forall r :: r in want ==> r.index < |lens|);
    }
    forall j, k | 0 <= j < k < |want|
      ensures want[j].index != want[k].index
    {
      if want[j].index == want[k].index {
        SameIndexSameRef(refs, want[j], want[k]);
        Twice(want, j, k);
        Once(refs, want[j]);
        assert false;
      }
    }
  }

  lemma SameIndexSameRef(refs: seq<Ref>, a: Ref, b: Ref)
    requires Distinct(refs) && a in refs && b in refs && a.index == b.index
    ensures a == b
  {
  }

  lemma Twice(s: seq<Ref>, j: nat, k: nat)
    requires j < k < |s| && s[j] == s[k]
    ensures multiset(s)[s[j]] >= 2
  {
    assert s == s[..k] + s[k..];
    assert s[..k][j] == s[j] && s[k..][0] == s[j];
    assert s[j] in multiset(s[..k]) && s[j] in multiset(s[k..]);
  }

  lemma {:induction false} Once(s: seq<Ref>, r: Ref)
    requires Distinct(s)
    ensures multiset(s)[r] <= 1
  {
    if s != [] {
      assert s == [s[0]] + s[1..];
      Once(s[1..], r);
      if r == s[0] {
        assert r !in s[1..];
      }
    }
  }

  /** Every layout has one segment more than the largest index. */
  lemma LayoutLength(refs: seq<Ref>, lens: seq<nat>, maxIndex: nat)
    requires Covered(refs, lens)
    requires forall j :: 0 <= j < |refs| ==> refs[j].index <= maxIndex
    requires exists j :: 0 <= j < |refs| && refs[j].index == maxIndex
    ensures |lens| == maxIndex + 1
  {
    assert Ref(|lens| - 1, lens[|lens| - 1]) in refs;
  }

  lemma NoRefs(v: Value, data: Bytes, base: nat)
    requires Recognized(Refs(v)) == [] && base <= |data|
    ensures Restored(v, data, base) == if base != |data| then None else Some(v)
  {
    if base == |data| {
      RestoredIs(v, data, base, []);
      SetNothing(v, TileMap(data, base, []));
    } else {
      forall lens | Covered([], lens)
        ensures !Tiles(lens, base, |data|)
      {
        CoveredLength([], [], lens);
      }
    }
  }

  lemma {:induction false} SetNothing(v: Value, views: map<nat, Bytes>)
    requires Recognized(Refs(v)) == []
    ensures SetViews(v, views) == v
    decreases v, 1
  {
    if IsPlaceholder(v) {
      assert !InRange(Refs(v)[0]);
    } else if IsContainer(v) {
      SetNothingAll(v.items, views);
    }
  }

  lemma {:induction false} SetNothingAll(items: seq<Value>, views: map<nat, Bytes>)
    requires Recognized(RefsAll(items)) == []
    ensures SetViewsAll(items, views) == items
    decreases items, 0
  {
    if items != [] {
      RecognizedConcat(Refs(items[0]), RefsAll(items[1..]));
      SetNothing(items[0], views);
      SetNothingAll(items[1..], views);
    }
  }

  lemma {:induction false} RecognizedConcat(a: seq<Ref>, b: seq<Ref>)
    ensures Recognized(a + b) == Recognized(a) + Recognized(b)
  {
    if a == [] {
      assert a + b == b;
    } else {
      assert (a + b)[0] == a[0] && (a + b)[1..] == a[1..] + b;
      RecognizedConcat(a[1..], b);
      if InRange(a[0]) {
        assert ([a[0]] + Recognized(a[1..])) + Recognized(b) == [a[0]] + (Recognized(a[1..]) + Recognized(b));
      }
    }
  }

  /** The table of lengths, with -1 where no placeholder gave one. */
  method TabulateLengths(refs: seq<Ref>, maxIndex: nat) returns (lengths: array<int>)
    requires Distinct(refs)
    requires forall j :: 0 <= j < |refs| ==> refs[j].index <= maxIndex
    ensures fresh(lengths) && lengths.Length == maxIndex + 1
    ensures forall j :: 0 <= j < |refs| ==> lengths[refs[j].index] == refs[j].len
    ensures forall k :: 0 <= k <= maxIndex && lengths[k] >= 0 ==> Ref(k, lengths[k]) in refs
  {
    lengths := new int[maxIndex + 1](_ => -1);
    for i := 0 to |refs|
      invariant forall j :: 0 <= j < i ==> lengths[refs[j].index] == refs[j].len
      invariant forall k :: 0 <= k <= maxIndex && lengths[k] >= 0 ==> Ref(k, lengths[k]) in refs
    {
      lengths[refs[i].index] := refs[i].len;
    }
  }

  /** A prefix of the lengths every layout must have already overruns the payload. */
  lemma PrefixTooLong(refs: seq<Ref>, prefix: seq<nat>, maxIndex: nat, base: nat, size: nat)
    requires Distinct(refs) && |prefix| <= maxIndex + 1 && base + Sum(prefix) > size
    requires forall j :: 0 <= j < |refs| ==> refs[j].index <= maxIndex
    requires exists j :: 0 <= j < |refs| && refs[j].index == maxIndex
    requires forall k :: 0 <= k < |prefix| ==> Ref(k, prefix[k]) in refs
    ensures !HasLayout(refs, base, size)
  {
    forall lens | Covered(refs, lens)
      ensures !Tiles(lens, base, size)
    {
      LayoutLength(refs, lens, maxIndex);
      forall k | 0 <= k < |prefix|
        ensures prefix[k] == lens[k]
      {
        assert Ref(k, prefix[k]) in refs && Ref(k, lens[k]) in refs;
      }
      assert lens[..|prefix|] == prefix;
      assert lens == prefix + lens[|prefix|..];
      SumConcat(prefix, lens[|prefix|..]);
    }
  }

  lemma MissingSegment(refs: seq<Ref>, i: nat, maxIndex: nat, base: nat, size: nat)
    requires i <= maxIndex
    requires forall j :: 0 <= j < |refs| ==> refs[j].index <= maxIndex && refs[j].index != i
    requires exists j :: 0 <= j < |refs| && refs[j].index == maxIndex
    ensures !HasLayout(refs, base, size)
  {
    forall lens
      ensures !Covered(refs, lens)
    {
      if Covered(refs, lens) {
        LayoutLength(refs, lens, maxIndex);
        CoveredHas(refs, lens, i);
        assert false;
      }
    }
  }

  lemma CoveredHas(refs: seq<Ref>, lens: seq<nat>, i: nat)
    requires Covered(refs, lens)
    ensures i < |lens| ==> exists j :: 0 <= j < |refs| && refs[j].index == i
  {
    if i < |lens| {
      assert Ref(i, lens[i]) in refs;
    }
  }

  lemma AppendTile(lens: seq<nat>, len: nat, base: nat)
    ensures Sum(lens + [len]) == Sum(lens) + len
    ensures forall k: nat :: k <= |lens| ==> TileStart(base, lens + [len], k) == TileStart(base, lens, k)
  {
    SumConcat(lens, [len]);
    forall k: nat | k <= |lens|
      ensures TileStart(base, lens + [len], k) == TileStart(base, lens, k)
    {
      assert (lens + [len])[..k] == lens[..k];
    }
  }

  method RestoreBinaries(v: Value, refs: seq<Ref>, data: Bytes, segmentBase: nat) returns (r: Option<Value>)
    requires segmentBase <= |data| && Visits(refs, v)
    ensures r == Restored(v, data, segmentBase)
  {
    VisitsSame(refs, v);
    if |refs| == 0 {
      assert multiset(Recognized(Refs(v))) == multiset{};
      NoRefs(v, data, segmentBase);
      return if segmentBase != |data| then None else Some(v);
    }
    var maxIndex := MaxIndex(refs);
    var lengths := TabulateLengths(refs, maxIndex);
    var ok: bool, offsets: array<nat>, lens: seq<nat> := PlaceSegments(refs, lengths, maxIndex, |data|, segmentBase);
    if !ok {
      return None;
    }
    RestoredIs(v, data, segmentBase, lens);
    var views := SegmentViews(refs, lengths, offsets, data, segmentBase, lens);
    return Some(SetViews(v, views));
  }

  method MaxIndex(refs: seq<Ref>) returns (maxIndex: nat)
    requires refs != []
    ensures forall j :: 0 <= j < |refs| ==> refs[j].index <= maxIndex
    ensures exists j :: 0 <= j < |refs| && refs[j].index == maxIndex
  {
    maxIndex := 0;
    ghost var at := 0;
    for i := 0 to |refs|
      invariant forall j :: 0 <= j < i ==> refs[j].index <= maxIndex
      invariant i == 0 ==> maxIndex == 0 && at == 0
      invariant i > 0 ==> 0 <= at < i && refs[at].index == maxIndex
    {
      if refs[i].index > maxIndex {
        maxIndex, at := refs[i].index, i;
      }
    }
  }

  /** The views handed to the setters. */
  method SegmentViews(
      refs: seq<Ref>, lengths: array<int>, offsets: array<nat>, data: Bytes, segmentBase: nat, ghost lens: seq<nat>)
    returns (views: map<nat, Bytes>)
    requires Tiles(lens, segmentBase, |data|) && Covered(refs, lens)
    requires lengths.Length == offsets.Length == |lens|
    requires forall k :: 0 <= k < |lens| ==> lens[k] == lengths[k] && offsets[k] == TileStart(segmentBase, lens, k)
    ensures views == TileMap(data, segmentBase, lens)
  {
    views := map[];
    for i := 0 to |refs|
      invariant forall j :: 0 <= j < i ==> refs[j].index in views
      invariant forall k :: k in views ==> k < |lens| && views[k] == Tile(data, segmentBase, lens, k)
    {
      var k := refs[i].index;
      SumPrefix(lens, k);
      views := views[k := data[offsets[k]..offsets[k] + lengths[k]]];
    }
    forall k: nat | k < |lens|
      ensures k in views
    {
      assert Ref(k, lens[k]) in refs;
    }
  }

  /** The offset loop: give every segment its place, or find that no layout exists. */
  method PlaceSegments(refs: seq<Ref>, lengths: array<int>, maxIndex: nat, size: nat, segmentBase: nat)
    returns (ok: bool, offsets: array<nat>, ghost lens: seq<nat>)
    requires segmentBase <= size && Distinct(refs) && lengths.Length == maxIndex + 1
    requires forall j :: 0 <= j < |refs| ==> refs[j].index <= maxIndex
    requires exists j :: 0 <= j < |refs| && refs[j].index == maxIndex
    requires forall j :: 0 <= j < |refs| ==> lengths[refs[j].index] == refs[j].len
    requires forall k :: 0 <= k <= maxIndex && lengths[k] >= 0 ==> Ref(k, lengths[k]) in refs
    ensures fresh(offsets) && offsets.Length == maxIndex + 1
    ensures !ok ==> !HasLayout(refs, segmentBase, size)
    ensures ok ==> Tiles(lens, segmentBase, size) && Covered(refs, lens) && |lens| == maxIndex + 1
    ensures ok ==> forall k :: 0 <= k <= maxIndex ==>
              lens[k] == lengths[k] && offsets[k] == TileStart(segmentBase, lens, k)
  {
    offsets := new nat[maxIndex + 1](_ => 0);
    var offset: nat := segmentBase;
    lens := [];
    for i := 0 to maxIndex + 1
      invariant |lens| == i && offset == segmentBase + Sum(lens) <= size
      invariant forall k :: 0 <= k < i ==> lens[k] == lengths[k] && Ref(k, lens[k]) in refs
      invariant forall k :: 0 <= k < i ==> offsets[k] == TileStart(segmentBase, lens, k)
    {
      if lengths[i] < 0 {
        MissingSegment(refs, i, maxIndex, segmentBase, size);
        return false, offsets, lens;
      }
      AppendTile(lens, lengths[i], segmentBase);
      assert lens[..i] == lens;
      lens := lens + [lengths[i]];
      if lengths[i] > size - offset {
        PrefixTooLong(refs, lens, maxIndex, segmentBase, size);
        return false, offsets, lens;
      }
      offsets[i] := offset;
      offset := offset + lengths[i];
    }
    if offset != size {
      forall other | Covered(refs, other)
        ensures !Tiles(other, segmentBase, size)
      {
        LayoutUnique(refs, lens, other);
      }
    }
    ok := offset == size;
  }

  // ---------------------------------------------------------------- the two restorers compared

  /** Both decoders reject, or both return the same tree. */
  ghost predicate SameOutcome(v: Value, data: Bytes, base: nat)
    requires base <= |data|
  {
    match Restore(v, data, base)
    case Ok(r) => Restored(v, data, base) == Some(r)
    case Err(_) => Restored(v, data, base) == None
  }

  lemma {:induction false} AllRecognized(refs: seq<Ref>)
    requires AllInRange(refs)
    ensures Recognized(refs) == refs
  {
    if refs != [] {
      assert forall j :: 0 <= j < |refs[1..]| ==> refs[1..][j] == refs[j + 1];
      AllRecognized(refs[1..]);
    }
  }

  lemma {:induction false} SetIsFill(v: Value, views: map<nat, Bytes>)
    requires AllInRange(Refs(v))
    ensures SetViews(v, views) == Fill(v, views)
    decreases v, 1
  {
    if IsPlaceholder(v) {
      assert InRange(Refs(v)[0]);
    } else if IsContainer(v) {
      SetAllIsFill(v.items, views);
    }
  }

  lemma {:induction false} SetAllIsFill(items: seq<Value>, views: map<nat, Bytes>)
    requires AllInRange(RefsAll(items))
    ensures SetViewsAll(items, views) == FillAll(items, views)
    decreases items, 0
  {
    if items != [] {
      var here, later := Refs(items[0]), RefsAll(items[1..]);
      assert forall j :: 0 <= j < |here| ==> (here + later)[j] == here[j];
      assert forall j :: 0 <= j < |later| ==> (here + later)[|here| + j] == later[j];
      SetIsFill(items[0], views);
      SetAllIsFill(items[1..], views);
    }
  }

  /** The fast restorer refines the table restorer, in any traversal order and with gaps. */
  lemma FastRefinesTable(v: Value, data: Bytes, base: nat)
    requires base <= |data| && Distinct(Refs(v)) && AllInRange(Refs(v))
    ensures SameOutcome(v, data, base)
  {
    AllRecognized(Refs(v));
    FastRestore.FastIsReference(v, data, base);
    if HasLayout(Refs(v), base, |data|) {
      var lens :| Tiles(lens, base, |data|) && Covered(Refs(v), lens);
      RestoredIs(v, data, base, lens);
      ReferenceIs(v, data, base, lens);
      SetIsFill(v, TileMap(data, base, lens));
    }
  }

  /** A placeholder Go does not recognize stays in the tree. */
  lemma {:induction false} UnrecognizedStays(v: Value, views: map<nat, Bytes>)
    requires !AllInRange(Refs(v))
    ensures !LookAlikeFree(SetViews(v, views))
    decreases v, 1
  {
    if IsPlaceholder(v) {
      assert Refs(v) == [RefOf(v)];
    } else if IsContainer(v) {
      var items := SetViewsAll(v.items, views);
      UnrecognizedStaysIn(v.items, views);
      assert !IsPlaceholder(WithItems(v, items)) by {
        if |v.items| == 2 {
          assert items[0] == SetViews(v.items[0], views) && items[1] == SetViews(v.items[1], views);
        }
      }
    }
  }

  lemma {:induction false} UnrecognizedStaysIn(items: seq<Value>, views: map<nat, Bytes>)
    requires !AllInRange(RefsAll(items))
    ensures RefsAll(SetViewsAll(items, views)) != []
    decreases items, 0
  {
    var here, later := Refs(items[0]), RefsAll(items[1..]);
    var set' := SetViewsAll(items, views);
    assert set'[1..] == SetViewsAll(items[1..], views);
    if AllInRange(here) {
      assert !AllInRange(later) by {
        var j :| 0 <= j < |here + later| && !InRange((here + later)[j]);
        assert !InRange(later[j - |here|]);
      }
      UnrecognizedStaysIn(items[1..], views);
    } else {
      UnrecognizedStays(items[0], views);
    }
  }

  /**
   * When the runtimes agree, exactly: on envelopes with distinct indices,
   * Python and Go have the same outcome if and only if every index and length
   * fits an int32, or no lengths lay the payload out, neither for all the
   * placeholders nor for those Go recognizes.
   */
  lemma RuntimesAgreeIff(v: Value, data: Bytes, base: nat)
    requires base <= |data| && Distinct(Refs(v))
    ensures SameOutcome(v, data, base) <==>
            AllInRange(Refs(v)) ||
            (!HasLayout(Refs(v), base, |data|) && !HasLayout(Recognized(Refs(v)), base, |data|))
  {
    FastRestore.FastIsReference(v, data, base);
    if AllInRange(Refs(v)) {
      FastRefinesTable(v, data, base);
    } else if Restore(v, data, base).Ok? && Restored(v, data, base).Some? {
      var _ := FastRestore.AcceptedFramesTile(v, data, base);
      var lens :| Tiles(lens, base, |data|) && Covered(Recognized(Refs(v)), lens)
        && Restored(v, data, base) == Some(SetViews(v, TileMap(data, base, lens)));
      UnrecognizedStays(v, TileMap(data, base, lens));
    }
  }

  /** A layout of a payload below 2 GiB only has indices and lengths in range. */
  lemma SmallLayoutInRange(refs: seq<Ref>, base: nat, size: nat, lens: seq<nat>)
    requires Distinct(refs) && Tiles(lens, base, size) && Covered(refs, lens)
    requires size <= MAX_INT32 && |refs| <= MAX_INT32
    ensures AllInRange(refs)
  {
    CoveredIsNoLonger(refs, lens);
    forall j | 0 <= j < |refs|
      ensures InRange(refs[j])
    {
      var i := refs[j].index;
      assert Ref(i, lens[i]) in refs;
      SumPrefix(lens, i);
      SumConcat(lens[..i + 1], lens[i + 1..]);
      assert lens == lens[..i + 1] + lens[i + 1..];
    }
  }

  /**
   * For a payload and a placeholder count below 2 GiB it comes to this: the
   * runtimes differ exactly when Go lays out the placeholders it recognizes and
   * leaves one it does not.
   */
  lemma RuntimesAgreeIffGoRejects(v: Value, data: Bytes, base: nat)
    requires base <= |data| <= MAX_INT32 && |Refs(v)| <= MAX_INT32 && Distinct(Refs(v))
    ensures SameOutcome(v, data, base) <==>
            AllInRange(Refs(v)) || !HasLayout(Recognized(Refs(v)), base, |data|)
  {
    RuntimesAgreeIff(v, data, base);
    if lens :| Tiles(lens, base, |data|) && Covered(Refs(v), lens) {
      SmallLayoutInRange(Refs(v), base, |data|, lens);
    }
  }

  /** A frame on which they differ: a placeholder for 2^31 bytes that are not there. */
  lemma RuntimesDiffer(data: Bytes)
    requires |data| < 0x8000_0000
    ensures var v := Placeholder(0, 0x8000_0000);
            && Restore(v, data, |data|) == Err(SegmentExceedsPayload(0))
            && Restored(v, data, |data|) == Some(v)
  {
    var v := Placeholder(0, 0x8000_0000);
    assert Refs(v) == [Ref(0, 0x8000_0000)];
    assert Recognized(Refs(v)) == Recognized(Refs(v)[1..]) == [];
    NoRefs(v, data, |data|);
  }
}
