/**
 * Node's restorer where it parts from Python's (node/src/codec.ts). Its table
 * of lengths is a JavaScript array, so an index from 2^32 - 1 on is not in it,
 * and a placeholder whose index has no view becomes `undefined` instead of an
 * error.
 */
module NodeRestore {
  import opened Wire
  import opened Values
  import opened Restoration
  import opened Tiling
  import opened FastRestore

  /** The first integer that is no array index. */
  const ARRAY_LIMIT := 0xFFFF_FFFF

  predicate AllIndices(refs: seq<Ref>) {
    forall j :: 0 <= j < |refs| ==> refs[j].index < ARRAY_LIMIT
  }

  /** The placeholders that enter the array of lengths. */
  function Entered(refs: seq<Ref>): seq<Ref> {
    if refs == [] then []
    else if refs[0].index < ARRAY_LIMIT then [refs[0]] + Entered(refs[1..])
    else Entered(refs[1..])
  }

  /** The swap; `undefined` stands for what JavaScript reads outside the array of views. */
  function SwapViews(v: Value, views: map<nat, Bytes>, undefined: Value): Value
    decreases v, 1
  {
    if IsPlaceholder(v) then
      if RefOf(v).index in views then Bin(views[RefOf(v).index]) else undefined
    else if IsContainer(v) then WithItems(v, SwapViewsAll(v.items, views, undefined))
    else v
  }

  function SwapViewsAll(items: seq<Value>, views: map<nat, Bytes>, undefined: Value): seq<Value>
    decreases items, 0
  {
    if items == [] then []
    else [SwapViews(items[0], views, undefined)] + SwapViewsAll(items[1..], views, undefined)
  }

  /** The layout of what the pass left, over the array of lengths. */
  function LayOutArray(left: seq<Ref>, data: Bytes, c: Cursor): Result<(map<nat, Bytes>, nat)>
    requires c.offset <= |data|
  {
    LayOut(c.next, IndexEnd(Entered(left)), c.offset, LengthTable(Entered(left)), data, map[])
  }

  function RestoreNode(v: Value, data: Bytes, base: nat, undefined: Value): Result<Value>
    requires base <= |data|
  {
    SequentialInBounds(v, data, Cursor(base, 0, false));
    match Sequential(v, data, Cursor(base, 0, false))
    case Err(e) => Err(e)
    case Ok((v', c)) => Finish(v', data, c, undefined)
  }

  /** After the pass: the fallback if the order flag is set, and the size check. */
  function Finish(v: Value, data: Bytes, c: Cursor, undefined: Value): Result<Value>
    requires c.offset <= |data|
  {
    if !c.outOfOrder then if c.offset != |data| then Err(PayloadSizeMismatch) else Ok(v)
    else
      match LayOutArray(Refs(v), data, c)
      case Err(e) => Err(e)
      case Ok((views, offset)) =>
        if offset != |data| then Err(PayloadSizeMismatch) else Ok(SwapViews(v, views, undefined))
  }

  // ---------------------------------------------------------------- Node and Python

  /** How many placeholders come in order from the start. */
  function InOrder(refs: seq<Ref>): (k: nat)
    ensures k <= |refs|
  {
    InOrderFrom(refs, 0)
  }

  function InOrderFrom(refs: seq<Ref>, n: nat): (k: nat)
    ensures k <= |refs|
    ensures forall j :: 0 <= j < k ==> refs[j].index == n + j
  {
    if refs == [] || refs[0].index != n then 0 else 1 + InOrderFrom(refs[1..], n + 1)
  }

  /**
   * After the in-order prefix comes a placeholder that repeats one of its
   * indices, or whose index is not in the array.
   */
  predicate HasNoView(refs: seq<Ref>) {
    var k := InOrder(refs);
    exists j :: k <= j < |refs| && (refs[j].index < k || refs[j].index >= ARRAY_LIMIT)
  }

  lemma {:induction false} ConsumeInOrder(refs: seq<Ref>, size: nat, c: Cursor, c': Cursor)
    requires Consume(refs, size, c) == Ok(c') && !c.outOfOrder
    ensures c'.next == c.next + InOrderFrom(refs, c.next)
  {
    if refs != [] {
      if refs[0].index != c.next {
        ConsumeTakesPrefix(refs[1..], size, c.(outOfOrder := true), c');
      } else {
        ConsumeInOrder(refs[1..], size, Cursor(c.offset + refs[0].len, c.next + 1, false), c');
      }
    }
  }

  /** The pass takes the in-order prefix and leaves the rest. */
  lemma PassTakesInOrder(v: Value, data: Bytes, base: nat, v': Value, c: Cursor)
    requires base <= |data| && Passed(v, data, base, v', c)
    ensures AfterPass(Refs(v), Refs(v'), base, |data|, c) && c.next == InOrder(Refs(v))
  {
    PassResult(v, data, base, v', c);
    PassConsumes(v, data, base, v', c);
    ConsumeInOrder(Refs(v), |data|, Cursor(base, 0, false), c);
  }

  lemma PassConsumes(v: Value, data: Bytes, base: nat, v': Value, c: Cursor)
    requires Passed(v, data, base, v', c)
    ensures Consume(Refs(v), |data|, Cursor(base, 0, false)) == Ok(c)
  {
    SequentialConsumes(v, data, Cursor(base, 0, false));
  }

  lemma {:induction false} EnteredAll(refs: seq<Ref>)
    requires AllIndices(refs)
    ensures Entered(refs) == refs
  {
    if refs != [] {
      assert AllIndices(refs[1..]);
      EnteredAll(refs[1..]);
    }
  }

  /** Where every index has a view the two swaps agree. */
  lemma {:induction false} SwapIsByIndex(v: Value, views: map<nat, Bytes>, undefined: Value)
    ensures ByIndex(v, views).Ok? ==> ByIndex(v, views).value == SwapViews(v, views, undefined)
    decreases v, 1
  {
    if !IsPlaceholder(v) && IsContainer(v) {
      SwapAllIsByIndex(v.items, views, undefined);
    }
  }

  lemma {:induction false} SwapAllIsByIndex(items: seq<Value>, views: map<nat, Bytes>, undefined: Value)
    ensures ByIndexAll(items, views).Ok? ==> ByIndexAll(items, views).value == SwapViewsAll(items, views, undefined)
    decreases items, 0
  {
    if items != [] {
      SwapIsByIndex(items[0], views, undefined);
      SwapAllIsByIndex(items[1..], views, undefined);
    }
  }

  /** The layout gives views to exactly the indices from the cursor on. */
  lemma {:induction false} LayOutDomain(
      i: nat, end: nat, offset: nat, lengths: map<nat, nat>, data: Bytes, views: map<nat, Bytes>)
    requires offset <= |data| && LayOut(i, end, offset, lengths, data, views).Ok?
    ensures forall k :: k in LayOut(i, end, offset, lengths, data, views).value.0 <==> k in views || i <= k < end
    decreases end - i
  {
    if i < end {
      var stop := offset + lengths[i];
      LayOutDomain(i + 1, end, stop, lengths, data, views[i := data[offset..stop]]);
    }
  }

  /**
   * Where the runtimes part, exactly: Node accepts what Python accepts, with
   * the same tree; on a frame Node accepts, Python fails if and only if a
   * placeholder after the in-order prefix repeats one of its indices or has an
   * index that is no array index.
   */
  lemma NodeAcceptsMoreIff(v: Value, data: Bytes, base: nat, undefined: Value)
    requires base <= |data| && |Refs(v)| < ARRAY_LIMIT
    ensures Restore(v, data, base).Ok? ==> RestoreNode(v, data, base, undefined) == Restore(v, data, base)
    ensures RestoreNode(v, data, base, undefined).Ok? ==> (Restore(v, data, base).Err? <==> HasNoView(Refs(v)))
  {
    if Sequential(v, data, Cursor(base, 0, false)).Ok? {
      var (v', c) := Sequential(v, data, Cursor(base, 0, false)).value;
      PassTakesInOrder(v, data, base, v', c);
      BothFinish(v, data, base, undefined, v', c);
      if AllIndices(Refs(v)) {
        LeftWithinArray(Refs(v), Refs(v'), base, |data|, c);
        SameWithinArray(Refs(v), v', data, c, undefined);
      } else {
        PythonNeedsArray(v, data, base);
        OutsideIsLeft(Refs(v));
      }
    }
  }

  /** Python after the pass. */
  function FinishPython(v: Value, data: Bytes, c: Cursor): Result<Value>
    requires c.offset <= |data|
  {
    match (if c.outOfOrder then Remaining(v, data, c) else Ok((v, c.offset)))
    case Err(e) => Err(e)
    case Ok((r, offset)) => if offset != |data| then Err(PayloadSizeMismatch) else Ok(r)
  }

  lemma BothFinish(v: Value, data: Bytes, base: nat, undefined: Value, v': Value, c: Cursor)
    requires base <= |data| && Passed(v, data, base, v', c) && c.offset <= |data|
    ensures Restore(v, data, base) == FinishPython(v', data, c)
    ensures RestoreNode(v, data, base, undefined) == Finish(v', data, c, undefined)
  {
  }

  /** With array indices only, the runtimes differ in the swap alone. */
  lemma SameWithinArray(refs: seq<Ref>, v: Value, data: Bytes, c: Cursor, undefined: Value)
    requires AllIndices(refs) && AllIndices(Refs(v)) && c.next == InOrder(refs) && Refs(v) == refs[c.next..]
    requires c.offset <= |data| && (!c.outOfOrder ==> c.next == |refs|)
    ensures FinishPython(v, data, c).Ok? ==> Finish(v, data, c, undefined) == FinishPython(v, data, c)
    ensures Finish(v, data, c, undefined).Ok? ==> (FinishPython(v, data, c).Err? <==> HasNoView(refs))
  {
    EnteredAll(Refs(v));
    if c.outOfOrder && LayOutArray(Refs(v), data, c).Ok? {
      SwapsCompare(refs, v, data, c, undefined);
    }
  }

  lemma SwapsCompare(refs: seq<Ref>, v: Value, data: Bytes, c: Cursor, undefined: Value)
    requires AllIndices(refs) && AllIndices(Refs(v)) && c.next == InOrder(refs) && Refs(v) == refs[c.next..]
    requires c.offset <= |data| && LayOutArray(Refs(v), data, c).Ok?
    ensures var (views, offset) := LayOutArray(Refs(v), data, c).value;
            && (Remaining(v, data, c).Ok? <==> !HasNoView(refs))
            && (Remaining(v, data, c).Ok? ==> Remaining(v, data, c).value == (SwapViews(v, views, undefined), offset))
  {
    EnteredAll(Refs(v));
    var views := LayOutArray(Refs(v), data, c).value.0;
    SwapIsByIndex(v, views, undefined);
    ByIndexFills(v, views, views);
    LayOutDomain(c.next, IndexEnd(Refs(v)), c.offset, LengthTable(Refs(v)), data, map[]);
    ViewsMissIff(refs, Refs(v), views, c.next);
  }

  lemma LeftWithinArray(refs: seq<Ref>, left: seq<Ref>, base: nat, size: nat, c: Cursor)
    requires AfterPass(refs, left, base, size, c) && AllIndices(refs)
    ensures AllIndices(left) && (!c.outOfOrder ==> c.next == |refs|)
  {
    assert forall j :: 0 <= j < |left| ==> left[j] == refs[c.next + j];
  }

  lemma ViewsMissIff(refs: seq<Ref>, left: seq<Ref>, views: map<nat, Bytes>, k: nat)
    requires AllIndices(refs) && k == InOrder(refs) && left == refs[k..]
    requires forall i :: i in views <==> k <= i < IndexEnd(left)
    ensures IndicesIn(left, views) <==> !HasNoView(refs)
  {
    assert forall j :: 0 <= j < |left| ==> left[j] == refs[k + j];
    assert forall j :: k <= j < |refs| ==> refs[j] == left[j - k];
  }

  /** Python accepts only indices below the number of placeholders. */
  lemma PythonNeedsArray(v: Value, data: Bytes, base: nat)
    requires base <= |data| && |Refs(v)| < ARRAY_LIMIT
    ensures Restore(v, data, base).Ok? ==> AllIndices(Refs(v))
  {
    if Restore(v, data, base).Ok? {
      var lens := AcceptedFramesTile(v, data, base);
      CoveredIsNoLonger(Refs(v), lens);
    }
  }

  lemma OutsideIsLeft(refs: seq<Ref>)
    requires |refs| < ARRAY_LIMIT && !AllIndices(refs)
    ensures HasNoView(refs)
  {
    var j :| 0 <= j < |refs| && refs[j].index >= ARRAY_LIMIT;
    assert j >= InOrder(refs);
  }

  // ---------------------------------------------------------------- distinct indices

  /** What the pass takes of all placeholders it takes of those that enter the array. */
  lemma {:induction false} EnteredSplit(refs: seq<Ref>, k: nat)
    requires k <= |refs| && forall j :: 0 <= j < k ==> refs[j].index < ARRAY_LIMIT
    ensures Entered(refs) == refs[..k] + Entered(refs[k..])
  {
    if k > 0 {
      var rest := refs[1..];
      EnteredSplit(rest, k - 1);
      assert rest[k - 1..] == refs[k..] && refs[..k] == [refs[0]] + rest[..k - 1];
      assert [refs[0]] + (rest[..k - 1] + Entered(refs[k..])) == ([refs[0]] + rest[..k - 1]) + Entered(refs[k..]);
    } else {
      assert refs[..0] == [] && refs[0..] == refs;
    }
  }

  lemma EnteredAfterPass(refs: seq<Ref>, left: seq<Ref>, base: nat, size: nat, c: Cursor)
    requires AfterPass(refs, left, base, size, c) && |refs| < ARRAY_LIMIT
    ensures AfterPass(Entered(refs), Entered(left), base, size, c.(outOfOrder := Entered(left) != []))
  {
    EnteredSplit(refs, c.next);
    assert Entered(refs)[..c.next] == refs[..c.next];
    assert forall j :: 0 <= j < c.next ==> Entered(refs)[j] == refs[j];
  }

  lemma {:induction false} EnteredMembers(refs: seq<Ref>)
    ensures forall r :: r in Entered(refs) <==> r in refs && r.index < ARRAY_LIMIT
  {
    if refs != [] {
      EnteredMembers(refs[1..]);
      assert refs == [refs[0]] + refs[1..];
    }
  }

  lemma {:induction false} EnteredDistinct(refs: seq<Ref>)
    requires Distinct(refs)
    ensures Distinct(Entered(refs))
  {
    if refs != [] {
      var rest := Entered(refs[1..]);
      EnteredDistinct(refs[1..]);
      EnteredMembers(refs[1..]);
      forall k | 0 <= k < |rest|
        ensures rest[k].index != refs[0].index
      {
        assert rest[k] in refs[1..];
        var j :| 0 <= j < |refs[1..]| && refs[1..][j] == rest[k];
        assert refs[j + 1] == rest[k];
      }
    }
  }

  /** For distinct indices Node accepts exactly the frames with a layout that covers the placeholders in its array. */
  lemma NodeIsReference(v: Value, data: Bytes, base: nat, undefined: Value)
    requires base <= |data| && |Refs(v)| < ARRAY_LIMIT && Distinct(Refs(v))
    ensures RestoreNode(v, data, base, undefined).Ok? <==> HasLayout(Entered(Refs(v)), base, |data|)
  {
    EnteredDistinct(Refs(v));
    if RestoreNode(v, data, base, undefined).Ok? {
      var (v', c) := Sequential(v, data, Cursor(base, 0, false)).value;
      PassTakesInOrder(v, data, base, v', c);
      AcceptedHasLayout(Refs(v), Refs(v'), data, base, c);
    }
    if lens :| Tiles(lens, base, |data|) && Covered(Entered(Refs(v)), lens) {
      LayoutAcceptedByNode(v, data, base, undefined, lens);
    }
  }

  lemma AcceptedHasLayout(refs: seq<Ref>, left: seq<Ref>, data: Bytes, base: nat, c: Cursor)
    requires |refs| < ARRAY_LIMIT && Distinct(Entered(refs)) && AfterPass(refs, left, base, |data|, c)
    requires if c.outOfOrder then LayOutArray(left, data, c).Ok? && LayOutArray(left, data, c).value.1 == |data|
             else c.offset == |data|
    ensures HasLayout(Entered(refs), base, |data|)
  {
    var in', left' := Entered(refs), Entered(left);
    var c' := c.(outOfOrder := left' != []);
    EnteredAfterPass(refs, left, base, |data|, c);
    if left' == [] {
      InOrderUsesAll(in', left', base, |data|, c');
      InOrderCovers(in');
    } else {
      LeftReaches(in', left', base, |data|, c');
      LayOutKeys(c.next, IndexEnd(left'), c.offset, LengthTable(left'), data, map[]);
      var lens := Used(in', left', base, |data|, c');
      LayOutSound(c.next, c.offset, LengthTable(left'), data, map[], base, lens);
    }
  }

  /** With distinct indices what is left goes beyond the in-order prefix. */
  lemma LeftReaches(refs: seq<Ref>, left: seq<Ref>, base: nat, size: nat, c: Cursor)
    requires AfterPass(refs, left, base, size, c) && Distinct(refs) && left != []
    ensures c.next < IndexEnd(left)
  {
    TailNotConsumed(refs, c.next);
    assert left[0] == refs[c.next];
  }

  lemma {:induction false} TailNotConsumed(refs: seq<Ref>, next: nat)
    requires Distinct(refs) && next <= |refs| && forall j :: 0 <= j < next ==> refs[j].index == j
    ensures forall k :: next <= k < |refs| ==> refs[k].index >= next
  {
    if next > 0 {
      TailNotConsumed(refs, next - 1);
      assert refs[next - 1].index == next - 1;
    }
  }

  lemma LayoutAcceptedByNode(v: Value, data: Bytes, base: nat, undefined: Value, lens: seq<nat>)
    requires base <= |data| && |Refs(v)| < ARRAY_LIMIT && Distinct(Entered(Refs(v)))
    requires Tiles(lens, base, |data|) && Covered(Entered(Refs(v)), lens)
    ensures RestoreNode(v, data, base, undefined).Ok?
  {
    var refs, start := Refs(v), Cursor(base, 0, false);
    DistinctDeclares(Entered(refs), lens);
    assert lens[..0] == [];
    ConsumeSucceeds(Entered(refs), |data|, start, base, lens);
    EnteredEnough(refs, |data|, start);
    SequentialConsumes(v, data, start);
    var (v', c) := Sequential(v, data, start).value;
    PassTakesInOrder(v, data, base, v', c);
    LayoutEndsPayload(refs, Refs(v'), data, base, c, lens);
  }

  /** The pass fails on no more than it takes: a placeholder outside the array only sets the flag. */
  lemma {:induction false} EnteredEnough(refs: seq<Ref>, size: nat, c: Cursor)
    requires c.next + |refs| < ARRAY_LIMIT && Consume(Entered(refs), size, c).Ok?
    ensures Consume(refs, size, c).Ok?
  {
    if refs != [] {
      if c.outOfOrder || refs[0].index != c.next {
        FlaggedTakesNothing(refs[1..], size, c.(outOfOrder := true));
      } else {
        var taken := Cursor(c.offset + refs[0].len, c.next + 1, false);
        assert Entered(refs)[1..] == Entered(refs[1..]);
        assert Consume(Entered(refs), size, c) == Consume(Entered(refs[1..]), size, taken);
        EnteredEnough(refs[1..], size, taken);
      }
    }
  }

  lemma {:induction false} FlaggedTakesNothing(refs: seq<Ref>, size: nat, c: Cursor)
    requires c.outOfOrder
    ensures Consume(refs, size, c) == Ok(c)
  {
    if refs != [] {
      FlaggedTakesNothing(refs[1..], size, c);
    }
  }

  lemma LayoutEndsPayload(refs: seq<Ref>, left: seq<Ref>, data: Bytes, base: nat, c: Cursor, lens: seq<nat>)
    requires |refs| < ARRAY_LIMIT && Distinct(Entered(refs)) && AfterPass(refs, left, base, |data|, c)
    requires Tiles(lens, base, |data|) && Covered(Entered(refs), lens)
    ensures if c.outOfOrder then LayOutArray(left, data, c).Ok? && LayOutArray(left, data, c).value.1 == |data|
            else c.offset == |data|
  {
    var in', left' := Entered(refs), Entered(left);
    var c' := c.(outOfOrder := left' != []);
    EnteredAfterPass(refs, left, base, |data|, c);
    PrefixAligned(in', left', base, |data|, c', lens);
    if left' == [] {
      InOrderEndsPayload(in', base, |data|, c', lens);
      assert IndexEnd(left') == 0;
    } else {
      FallbackAccepted(in', c.next, lens);
      LayOutComplete(c.next, c.offset, LengthTable(left'), data, map[], base, lens);
    }
  }

  lemma PrefixAligned(refs: seq<Ref>, left: seq<Ref>, base: nat, size: nat, c: Cursor, lens: seq<nat>)
    requires AfterPass(refs, left, base, size, c) && Distinct(refs) && Covered(refs, lens)
    ensures Aligned(c, base, lens)
  {
    DistinctDeclares(refs, lens);
    if c.next > 0 {
      assert refs[c.next - 1].index < |lens|;
    }
    forall j | 0 <= j < c.next
      ensures lens[j] == refs[..c.next][j].len
    {
      assert refs[j].index == j;
    }
    assert lens[..c.next] == LensOf(refs[..c.next]);
  }

  /**
   * When the runtimes agree, exactly: with distinct indices Node and Python
   * accept the same frames if and only if every index is an array index or the
   * placeholders in the array have no layout.
   */
  lemma NodeAgreesIff(v: Value, data: Bytes, base: nat, undefined: Value)
    requires base <= |data| && |Refs(v)| < ARRAY_LIMIT && Distinct(Refs(v))
    ensures (RestoreNode(v, data, base, undefined).Ok? <==> Restore(v, data, base).Ok?)
            <==> AllIndices(Refs(v)) || !HasLayout(Entered(Refs(v)), base, |data|)
  {
    NodeIsReference(v, data, base, undefined);
    if AllIndices(Refs(v)) {
      EnteredAll(Refs(v));
      FastIsReference(v, data, base);
    } else {
      PythonNeedsArray(v, data, base);
    }
  }

  // ---------------------------------------------------------------- the order of keys

  ghost predicate SameRefs(a: seq<Ref>, b: seq<Ref>) {
    forall r :: r in a <==> r in b
  }

  /**
   * JavaScript enumerates keys that look like integers first, whatever their
   * order on the wire. With distinct indices that does not matter.
   */
  lemma AnyOrderOfKeys(wire: Value, enumerated: Value, data: Bytes, base: nat, undefined: Value)
    requires base <= |data| && |Refs(wire)| < ARRAY_LIMIT && |Refs(enumerated)| < ARRAY_LIMIT
    requires Distinct(Refs(wire)) && Distinct(Refs(enumerated)) && SameRefs(Refs(wire), Refs(enumerated))
    ensures RestoreNode(enumerated, data, base, undefined).Ok? <==> RestoreNode(wire, data, base, undefined).Ok?
  {
    NodeIsReference(wire, data, base, undefined);
    NodeIsReference(enumerated, data, base, undefined);
    EnteredMembers(Refs(wire));
    EnteredMembers(Refs(enumerated));
    SameLayouts(Entered(Refs(wire)), Entered(Refs(enumerated)), base, |data|);
  }

  lemma SameLayouts(a: seq<Ref>, b: seq<Ref>, base: nat, size: nat)
    requires SameRefs(a, b)
    ensures HasLayout(a, base, size) <==> HasLayout(b, base, size)
  {
    forall lens: seq<nat>
      ensures Covered(a, lens) <==> Covered(b, lens)
    {
      assert forall j :: 0 <= j < |a| ==> a[j] in b;
      assert forall j :: 0 <= j < |b| ==> b[j] in a;
    }
  }

  /** With a repeated index it does: Python restores the order on the wire, Node's own order leaves an `undefined`. */
  lemma OrderOfKeysMatters(undefined: Value)
    ensures var p0, p1 := Placeholder(0, 0), Placeholder(1, 0);
            var wire, enumerated := Map(["b", "1", "2"], [p1, p0, p0]), Map(["1", "2", "b"], [p0, p0, p1]);
            && Restore(wire, [], 0) == Ok(Map(["b", "1", "2"], [Bin([]), Bin([]), Bin([])]))
            && RestoreNode(enumerated, [], 0, undefined) == Ok(Map(["1", "2", "b"], [Bin([]), undefined, Bin([])]))
  {
    RestoresOnWire();
    RestoresEnumerated(undefined);
  }

  lemma RestoresOnWire()
    ensures var p0, p1 := Placeholder(0, 0), Placeholder(1, 0);
            Restore(Map(["b", "1", "2"], [p1, p0, p0]), [], 0)
            == Ok(Map(["b", "1", "2"], [Bin([]), Bin([]), Bin([])]))
  {
    var p0, p1, keys := Placeholder(0, 0), Placeholder(1, 0), ["b", "1", "2"];
    var start := Cursor(0, 0, false);
    Leaves(p1, start);
    ThreeInOrder(keys, p1, p0, p0, start, p1, start.(outOfOrder := true));
    RefsOfThree(keys, p1, p0, p0);
    var refs := [Ref(1, 0), Ref(0, 0), Ref(0, 0)];
    assert Refs(Map(keys, [p1, p0, p0])) == refs;
    LaysOutBoth(refs);
    FillThree(keys, p0, p1, map[0 := [], 1 := []]);
  }

  lemma LaysOutBoth(refs: seq<Ref>)
    requires refs == [Ref(1, 0), Ref(0, 0), Ref(0, 0)]
    ensures LayOut(0, IndexEnd(refs), 0, LengthTable(refs), [], map[]) == Ok((map[0 := [], 1 := []], 0))
  {
    LengthTableKeys(refs, 0);
    LengthTableKeys(refs, 1);
    assert refs[0].index == 1 && refs[1].index == 0;
    assert IndexEnd(refs) == 2;
    var data: Bytes, table := [], LengthTable(refs);
    assert table[0] == 0 && table[1] == 0 && data[0..0] == [];
    assert LayOut(0, 2, 0, table, data, map[]) == LayOut(1, 2, 0, table, data, map[0 := []]);
  }

  lemma LaysOutSecond(refs: seq<Ref>)
    requires refs == [Ref(0, 0), Ref(1, 0)]
    ensures LayOutArray(refs, [], Cursor(0, 1, true)) == Ok((map[1 := []], 0))
  {
    EnteredAll(refs);
    LengthTableKeys(refs, 1);
    assert refs[1].index == 1;
    assert IndexEnd(refs) == 2;
    var data: Bytes, table := [], LengthTable(refs);
    assert table[1] == 0 && data[0..0] == [];
  }

  lemma FillThree(keys: seq<string>, p0: Value, p1: Value, views: map<nat, Bytes>)
    requires p0 == Placeholder(0, 0) && p1 == Placeholder(1, 0) && views == map[0 := [], 1 := []]
    ensures ByIndex(Map(keys, [p1, p0, p0]), views) == Ok(Map(keys, [Bin([]), Bin([]), Bin([])]))
  {
    assert [p1, p0, p0][1..] == [p0, p0] && [p0, p0][1..] == [p0] && [p0][1..] == [];
    var e := Bin([]);
    assert ByIndex(p0, views) == Ok(e) && ByIndex(p1, views) == Ok(e);
    assert [e] + [] == [e] && [e] + [e] == [e, e] && [e] + [e, e] == [e, e, e];
    assert ByIndexAll([], views) == Ok([]);
    assert ByIndexAll([p0], views) == Ok([e]);
    assert ByIndexAll([p0, p0], views) == Ok([e, e]);
    assert ByIndexAll([p1, p0, p0], views) == Ok([e, e, e]);
  }

  lemma RestoresEnumerated(undefined: Value)
    ensures var p0, p1 := Placeholder(0, 0), Placeholder(1, 0);
            RestoreNode(Map(["1", "2", "b"], [p0, p0, p1]), [], 0, undefined)
            == Ok(Map(["1", "2", "b"], [Bin([]), undefined, Bin([])]))
  {
    var p0, p1, keys := Placeholder(0, 0), Placeholder(1, 0), ["1", "2", "b"];
    var taken := Cursor(0, 1, false);
    var v' := Map(keys, [Bin([]), p0, p1]);
    TakesFirst(p0);
    Leaves(p0, taken);
    ThreeInOrder(keys, p0, p0, p1, Cursor(0, 0, false), Bin([]), taken);
    RefsOfThree(keys, Bin([]), p0, p1);
    var refs := [Ref(0, 0), Ref(1, 0)];
    assert Refs(v') == refs;
    LaysOutSecond(refs);
    SwapThree(keys, p0, p1, undefined);
  }

  lemma SwapThree(keys: seq<string>, p0: Value, p1: Value, undefined: Value)
    requires p0 == Placeholder(0, 0) && p1 == Placeholder(1, 0)
    ensures SwapViews(Map(keys, [Bin([]), p0, p1]), map[1 := []], undefined) == Map(keys, [Bin([]), undefined, Bin([])])
  {
    var views: map<nat, Bytes> := map[1 := []];
    assert [Bin([]), p0, p1][1..] == [p0, p1] && [p0, p1][1..] == [p1] && [p1][1..] == [];
    var e := Bin([]);
    assert SwapViews(e, views, undefined) == e && SwapViews(p0, views, undefined) == undefined;
    assert SwapViews(p1, views, undefined) == e;
    assert [e] + [] == [e] && [undefined] + [e] == [undefined, e] && [e] + [undefined, e] == [e, undefined, e];
    assert SwapViewsAll([p1], views, undefined) == [e];
    assert SwapViewsAll([p0, p1], views, undefined) == [undefined, e];
    assert SwapViewsAll([e, p0, p1], views, undefined) == [e, undefined, e];
  }

  lemma TakesFirst(p: Value)
    requires p == Placeholder(0, 0)
    ensures Sequential(p, [], Cursor(0, 0, false)) == Ok((Bin([]), Cursor(0, 1, false)))
  {
    var data: Bytes := [];
    assert data[0..0] == [];
  }

  lemma Leaves(p: Value, c: Cursor)
    requires IsPlaceholder(p) && (c.outOfOrder || RefOf(p).index != c.next)
    ensures Sequential(p, [], c) == Ok((p, c.(outOfOrder := true)))
  {
  }

  /** The pass over three placeholders of which only the first may be taken. */
  lemma ThreeInOrder(keys: seq<string>, a: Value, b: Value, d: Value, c: Cursor, a': Value, c': Cursor)
    requires IsPlaceholder(a) && IsPlaceholder(b) && IsPlaceholder(d)
    requires Sequential(a, [], c) == Ok((a', c')) && (c'.outOfOrder || RefOf(b).index != c'.next)
    ensures Sequential(Map(keys, [a, b, d]), [], c) == Ok((Map(keys, [a', b, d]), c'.(outOfOrder := true)))
  {
    var flagged := c'.(outOfOrder := true);
    Leaves(b, c');
    Leaves(d, flagged);
    assert [a, b, d][1..] == [b, d] && [b, d][1..] == [d] && [d][1..] == [];
    assert SequentialAll([], [], flagged) == Ok(([], flagged));
    assert [d] + [] == [d] && [b] + [d] == [b, d] && [a'] + [b, d] == [a', b, d];
    assert SequentialAll([d], [], flagged) == Ok(([d], flagged));
    assert SequentialAll([b, d], [], c') == Ok(([b, d], flagged));
  }

  lemma RefsOfThree(keys: seq<string>, a: Value, b: Value, d: Value)
    requires (IsPlaceholder(a) || a.Bin?) && IsPlaceholder(b) && IsPlaceholder(d)
    ensures Refs(Map(keys, [a, b, d])) == (if a.Bin? then [] else [RefOf(a)]) + [RefOf(b), RefOf(d)]
  {
    assert [a, b, d][1..] == [b, d] && [b, d][1..] == [d] && [d][1..] == [];
    assert RefsAll([d]) == [RefOf(d)] + RefsAll([]);
    assert RefsAll([b, d]) == [RefOf(b)] + [RefOf(d)];
    assert Refs(a) == if a.Bin? then [] else [RefOf(a)];
  }

  // ---------------------------------------------------------------- two frames

  /** Two placeholders of index 0: Node hands out `undefined`, Python raises a key error. */
  lemma NodeHandsOutUndefined(undefined: Value)
    ensures var v := List([Placeholder(0, 0), Placeholder(0, 0)]);
            && RestoreNode(v, [], 0, undefined) == Ok(List([Bin([]), undefined]))
            && Restore(v, [], 0) == Err(MissingView(0))
  {
    var p := Placeholder(0, 0);
    var v' := List([Bin([]), p]);
    FirstIsTaken(p);
    var items := [Bin([]), p];
    assert items[1..] == [p] && [p][1..] == [];
    assert RefsAll([p]) == Refs(p) + RefsAll([]);
    assert RefsAll(items) == Refs(Bin([])) + RefsAll([p]);
    assert Refs(v') == [Ref(0, 0)] && [Ref(0, 0)][1..] == [];
    EnteredAll([Ref(0, 0)]);
    assert IndexEnd([Ref(0, 0)]) == 1;
    assert ByIndexAll([p], map[]) == Err(MissingView(0));
    assert SwapViewsAll([p], map[], undefined) == [undefined];
    assert [Bin([])] + [undefined] == [Bin([]), undefined];
  }

  lemma FirstIsTaken(p: Value)
    requires p == Placeholder(0, 0)
    ensures Sequential(List([p, p]), [], Cursor(0, 0, false)) == Ok((List([Bin([]), p]), Cursor(0, 1, true)))
  {
    var after := Cursor(0, 1, true);
    assert [p, p][1..] == [p] && [p][1..] == [];
    var data: Bytes := [];
    assert data[0..0] == [];
    assert Sequential(p, data, Cursor(0, 0, false)) == Ok((Bin([]), Cursor(0, 1, false)));
    assert Sequential(p, [], Cursor(0, 1, false)) == Ok((p, after));
    assert SequentialAll([], [], after) == Ok(([], after));
    assert [p] + [] == [p] && [Bin([])] + [p] == [Bin([]), p];
    assert SequentialAll([p], [], Cursor(0, 1, false)) == Ok(([p], after));
    assert SequentialAll([p, p], [], Cursor(0, 0, false)) == Ok(([Bin([]), p], after));
  }

  /** One placeholder of an index outside the array, whatever its length: Node ignores it, Python misses segment 0. */
  lemma NodeIgnoresBigIndex(index: nat, len: nat, undefined: Value)
    requires index >= ARRAY_LIMIT
    ensures var v := Placeholder(index, len);
            && RestoreNode(v, [], 0, undefined) == Ok(undefined)
            && Restore(v, [], 0) == Err(MissingPlaceholder(0))
  {
    var v, refs := Placeholder(index, len), [Ref(index, len)];
    assert Refs(v) == refs && refs[1..] == [];
    assert Entered(refs) == [] && IndexEnd(Entered(refs)) == 0;
    LengthTableKeys(refs, 0);
    assert IndexEnd(refs) == index + 1;
  }
}
