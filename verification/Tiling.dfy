/**
 * What a restored envelope must be, said without an algorithm: the segments
 * lie back to back in index order, and every placeholder becomes its segment.
 */
module Tiling {
  import opened Wire
  import opened Values
  import opened Restoration

  function TileStart(base: nat, lens: seq<nat>, i: nat): nat
    requires i <= |lens|
  {
    base + Sum(lens[..i])
  }

  /** The lengths lay out exactly the bytes of the payload from `base` to its end. */
  predicate Tiles(lens: seq<nat>, base: nat, size: nat) {
    base + Sum(lens) == size
  }

  /** Segment i of the payload. */
  function Tile(data: Bytes, base: nat, lens: seq<nat>, i: nat): (t: Bytes)
    requires Tiles(lens, base, |data|) && i < |lens|
    ensures |t| == lens[i]
  {
    SumPrefix(lens, i);
    data[TileStart(base, lens, i)..TileStart(base, lens, i + 1)]
  }

  function TileMap(data: Bytes, base: nat, lens: seq<nat>): map<nat, Bytes>
    requires Tiles(lens, base, |data|)
  {
    map i: nat | i < |lens| :: Tile(data, base, lens, i)
  }

  /** Every index is a segment, and every segment has a placeholder giving its length. */
  predicate Covered(refs: seq<Ref>, lens: seq<nat>) {
    && (forall j :: 0 <= j < |refs| ==> refs[j].index < |lens|)
    && (forall i :: 0 <= i < |lens| ==> Ref(i, lens[i]) in refs)
  }

  predicate Distinct(refs: seq<Ref>) {
    forall j, k :: 0 <= j < k < |refs| ==> refs[j].index != refs[k].index
  }

  /** The reference restorer: a layout that covers the placeholders and uses up the payload. */
  ghost predicate HasLayout(refs: seq<Ref>, base: nat, size: nat) {
    exists lens :: Tiles(lens, base, size) && Covered(refs, lens)
  }

  ghost function Reference(v: Value, data: Bytes, base: nat): Option<Value> {
    if HasLayout(Refs(v), base, |data|) then
      var lens :| Tiles(lens, base, |data|) && Covered(Refs(v), lens);
      Some(Fill(v, TileMap(data, base, lens)))
    else None
  }

  lemma CoveredLength(refs: seq<Ref>, a: seq<nat>, b: seq<nat>)
    requires Covered(refs, a) && Covered(refs, b)
    ensures |b| <= |a|
  {
    if b != [] {
      var last := |b| - 1;
      assert Ref(last, b[last]) in refs;
    }
  }

  /** With distinct indices there is at most one layout. */
  lemma LayoutUnique(refs: seq<Ref>, a: seq<nat>, b: seq<nat>)
    requires Distinct(refs) && Covered(refs, a) && Covered(refs, b)
    ensures a == b
  {
    CoveredLength(refs, a, b);
    CoveredLength(refs, b, a);
    forall i | 0 <= i < |a|
      ensures a[i] == b[i]
    {
      assert Ref(i, a[i]) in refs && Ref(i, b[i]) in refs;
    }
  }

  /** Every segment has a placeholder of its own. */
  lemma CoveredIsNoLonger(refs: seq<Ref>, lens: seq<nat>)
    requires Covered(refs, lens)
    ensures |lens| <= |refs|
  {
    var given := set j | 0 <= j < |refs| :: refs[j].index;
    Indices(refs);
    forall i | i in IndexSet(|lens|)
      ensures i in given
    {
      assert Ref(i, lens[i]) in refs;
    }
    SubsetSize(IndexSet(|lens|), given);
  }

  lemma {:induction false} Indices(refs: seq<Ref>)
    ensures |set j | 0 <= j < |refs| :: refs[j].index| <= |refs|
  {
    if refs != [] {
      var rest := refs[..|refs| - 1];
      Indices(rest);
      assert (set j | 0 <= j < |refs| :: refs[j].index)
          == (set j | 0 <= j < |rest| :: rest[j].index) + {refs[|rest|].index};
    }
  }

  lemma SubsetSize(a: set<nat>, b: set<nat>)
    requires a <= b
    ensures |a| <= |b|
  {
    assert b == a + (b - a);
  }

  lemma ReferenceIs(v: Value, data: Bytes, base: nat, lens: seq<nat>)
    requires Distinct(Refs(v)) && Tiles(lens, base, |data|) && Covered(Refs(v), lens)
    ensures Reference(v, data, base) == Some(Fill(v, TileMap(data, base, lens)))
  {
    var chosen :| Tiles(chosen, base, |data|) && Covered(Refs(v), chosen)
      && Reference(v, data, base) == Some(Fill(v, TileMap(data, base, chosen)));
    LayoutUnique(Refs(v), lens, chosen);
  }

  // ---------------------------------------------------------------- the sequential pass over placeholders

  /** The sequential pass on the placeholders alone. */
  function Consume(refs: seq<Ref>, size: nat, c: Cursor): Result<Cursor> {
    if refs == [] then Ok(c)
    else if c.outOfOrder || refs[0].index != c.next then Consume(refs[1..], size, c.(outOfOrder := true))
    else if c.offset + refs[0].len > size then Err(SegmentExceedsPayload(c.next))
    else Consume(refs[1..], size, Cursor(c.offset + refs[0].len, c.next + 1, false))
  }

  lemma {:induction false} ConsumeConcat(a: seq<Ref>, b: seq<Ref>, size: nat, c: Cursor)
    ensures Consume(a + b, size, c) ==
            match Consume(a, size, c) case Err(e) => Err(e) case Ok(c') => Consume(b, size, c')
  {
    if a == [] {
      assert a + b == b;
    } else {
      assert (a + b)[1..] == a[1..] + b;
      if c.outOfOrder || a[0].index != c.next {
        ConsumeConcat(a[1..], b, size, c.(outOfOrder := true));
      } else if c.offset + a[0].len <= size {
        ConsumeConcat(a[1..], b, size, Cursor(c.offset + a[0].len, c.next + 1, false));
      }
    }
  }

  /** What the pass took: an in-order prefix, cut short only by the flag, moving the offset by its lengths. */
  lemma {:induction false} ConsumeTakesPrefix(refs: seq<Ref>, size: nat, c: Cursor, c': Cursor)
    requires Consume(refs, size, c) == Ok(c')
    ensures c.next <= c'.next <= c.next + |refs|
    ensures forall j :: 0 <= j < c'.next - c.next ==> refs[j].index == c.next + j
    ensures c.outOfOrder ==> c' == c
    ensures c'.outOfOrder == (c.outOfOrder || c'.next < c.next + |refs|)
  {
    if refs != [] {
      if c.outOfOrder || refs[0].index != c.next {
        ConsumeTakesPrefix(refs[1..], size, c.(outOfOrder := true), c');
      } else {
        var c1 := Cursor(c.offset + refs[0].len, c.next + 1, false);
        ConsumeTakesPrefix(refs[1..], size, c1, c');
        assert forall j :: 1 <= j < |refs| ==> refs[j] == refs[1..][j - 1];
      }
    }
  }

  lemma {:induction false} ConsumeAdvances(refs: seq<Ref>, size: nat, c: Cursor, c': Cursor, k: nat)
    requires Consume(refs, size, c) == Ok(c') && c'.next == c.next + k && k <= |refs|
    ensures c'.offset == c.offset + Sum(LensOf(refs[..k]))
  {
    if refs != [] {
      if c.outOfOrder || refs[0].index != c.next {
        ConsumeTakesPrefix(refs[1..], size, c.(outOfOrder := true), c');
        ConsumeAdvances(refs[1..], size, c.(outOfOrder := true), c', 0);
        assert refs[..k] == [] && refs[1..][..0] == [];
      } else {
        var c1 := Cursor(c.offset + refs[0].len, c.next + 1, false);
        ConsumeTakesPrefix(refs[1..], size, c1, c');
        ConsumeAdvances(refs[1..], size, c1, c', k - 1);
        assert LensOf(refs[..k])[1..] == LensOf(refs[1..][..k - 1]);
      }
    } else {
      assert refs[..k] == [];
    }
  }

  function LensOf(refs: seq<Ref>): (r: seq<nat>)
    ensures |r| == |refs|
    ensures forall j :: 0 <= j < |r| ==> r[j] == refs[j].len
  {
    seq(|refs|, j requires 0 <= j < |refs| => refs[j].len)
  }

  /** The pass from c to c' took the first placeholders and left the others. */
  ghost predicate Took(refs: seq<Ref>, size: nat, c: Cursor, left: seq<Ref>, c': Cursor) {
    && Consume(refs, size, c) == Ok(c')
    && c.next <= c'.next <= c.next + |refs|
    && left == refs[c'.next - c.next..]
  }

  lemma TookBoth(a: seq<Ref>, b: seq<Ref>, size: nat, c: Cursor, la: seq<Ref>, c1: Cursor, lb: seq<Ref>, c2: Cursor)
    requires Took(a, size, c, la, c1) && Took(b, size, c1, lb, c2)
    ensures Took(a + b, size, c, la + lb, c2)
  {
    ConsumeConcat(a, b, size, c);
    ConsumeTakesPrefix(a, size, c, c1);
    ConsumeTakesPrefix(b, size, c1, c2);
    DropSplit(a, b, c1.next - c.next, c2.next - c1.next);
  }

  lemma DropSplit(a: seq<Ref>, b: seq<Ref>, m: nat, n: nat)
    requires m <= |a| && n <= |b|
    requires m < |a| ==> n == 0
    ensures (a + b)[m + n..] == a[m..] + b[n..]
  {
  }

  /** The pass over a tree is the pass over its placeholders, and leaves the ones it did not take. */
  lemma {:induction false} SequentialConsumes(v: Value, data: Bytes, c: Cursor)
    ensures var r := Sequential(v, data, c);
            if r.Ok? then Took(Refs(v), |data|, c, Refs(r.value.0), r.value.1)
            else Consume(Refs(v), |data|, c) == Err(r.error)
    decreases v, 1
  {
    if IsPlaceholder(v) {
      var ref := RefOf(v);
      assert Refs(v) == [ref] && [ref][1..] == [];
      assert Consume([ref][1..], |data|, c.(outOfOrder := true)) == Ok(c.(outOfOrder := true));
    } else if IsContainer(v) {
      SequentialAllConsumes(v.items, data, c);
      if Sequential(v, data, c).Ok? {
        SequentialKeepsShape(v, data, c);
      }
    }
  }

  lemma SequentialKeepsShape(v: Value, data: Bytes, c: Cursor)
    requires IsContainer(v) && !IsPlaceholder(v) && Sequential(v, data, c).Ok?
    ensures !IsPlaceholder(Sequential(v, data, c).value.0)
  {
    var items := SequentialAll(v.items, data, c).value.0;
    if |items| == 2 {
      assert items[0].Int? ==> items[0] == v.items[0];
      assert items[1].Int? ==> items[1] == v.items[1];
    }
  }

  lemma {:induction false} SequentialAllConsumes(items: seq<Value>, data: Bytes, c: Cursor)
    ensures var r := SequentialAll(items, data, c);
            if r.Ok? then Took(RefsAll(items), |data|, c, RefsAll(r.value.0), r.value.1)
            else Consume(RefsAll(items), |data|, c) == Err(r.error)
    decreases items, 0
  {
    if items != [] {
      var here, later := Refs(items[0]), RefsAll(items[1..]);
      SequentialConsumes(items[0], data, c);
      var first := Sequential(items[0], data, c);
      if first.Err? {
        ConsumeConcat(here, later, |data|, c);
        return;
      }
      SequentialAllConsumes(items[1..], data, first.value.1);
      var rest := SequentialAll(items[1..], data, first.value.1);
      if rest.Err? {
        ConsumeConcat(here, later, |data|, c);
        return;
      }
      TookBoth(here, later, |data|, c, Refs(first.value.0), first.value.1, RefsAll(rest.value.0), rest.value.1);
      assert ([first.value.0] + rest.value.0)[1..] == rest.value.0;
    }
  }

  /** The cursor stands at the start of tile `next`. */
  predicate Aligned(c: Cursor, base: nat, lens: seq<nat>) {
    c.next <= |lens| && c.offset == TileStart(base, lens, c.next)
  }

  /** The placeholders taken between two cursors declare the tiles' lengths. */
  predicate Matches(refs: seq<Ref>, c: Cursor, c': Cursor, lens: seq<nat>) {
    && c.next <= c'.next <= |lens|
    && c'.next - c.next <= |refs|
    && forall j :: c.next <= j < c'.next ==> lens[j] == refs[j - c.next].len
  }

  /** What the pass filled in is what the tiles prescribe. */
  lemma {:induction false} SequentialFills(v: Value, data: Bytes, c: Cursor, base: nat, lens: seq<nat>)
    requires Tiles(lens, base, |data|) && Aligned(c, base, lens)
    requires Sequential(v, data, c).Ok?
    requires Matches(Refs(v), c, Sequential(v, data, c).value.1, lens)
    ensures var (v', c') := Sequential(v, data, c).value;
            Aligned(c', base, lens) && Fill(v', TileMap(data, base, lens)) == Fill(v, TileMap(data, base, lens))
    decreases v, 1
  {
    var tiles := TileMap(data, base, lens);
    if IsPlaceholder(v) {
      var (v', c') := Sequential(v, data, c).value;
      if c'.next != c.next {
        SumPrefix(lens, c.next);
        assert lens[c.next] == Refs(v)[c.next - c.next].len;
        assert tiles[c.next] == data[c.offset..c'.offset];
      }
    } else if IsContainer(v) {
      SequentialAllFills(v.items, data, c, base, lens);
      SequentialConsumes(v, data, c);
      SequentialKeepsShape(v, data, c);
    }
  }

  lemma {:induction false} SequentialAllFills(items: seq<Value>, data: Bytes, c: Cursor, base: nat, lens: seq<nat>)
    requires Tiles(lens, base, |data|) && Aligned(c, base, lens)
    requires SequentialAll(items, data, c).Ok?
    requires Matches(RefsAll(items), c, SequentialAll(items, data, c).value.1, lens)
    ensures var (items', c') := SequentialAll(items, data, c).value;
            Aligned(c', base, lens) &&
            FillAll(items', TileMap(data, base, lens)) == FillAll(items, TileMap(data, base, lens))
    decreases items, 0
  {
    if items != [] {
      var here, later := Refs(items[0]), RefsAll(items[1..]);
      var (first, c1) := Sequential(items[0], data, c).value;
      var (rest, c2) := SequentialAll(items[1..], data, c1).value;
      SequentialConsumes(items[0], data, c);
      SequentialAllConsumes(items[1..], data, c1);
      ConsumeTakesPrefix(here, |data|, c, c1);
      ConsumeTakesPrefix(later, |data|, c1, c2);
      assert RefsAll(items) == here + later;
      MatchesSplit(here, later, c, c1, c2, lens);
      SequentialFills(items[0], data, c, base, lens);
      SequentialAllFills(items[1..], data, c1, base, lens);
      assert ([first] + rest)[1..] == rest;
    }
  }

  lemma MatchesSplit(a: seq<Ref>, b: seq<Ref>, c: Cursor, c1: Cursor, c2: Cursor, lens: seq<nat>)
    requires Matches(a + b, c, c2, lens)
    requires 0 <= c1.next - c.next <= |a| && 0 <= c2.next - c1.next <= |b|
    requires c1.next - c.next < |a| ==> c2.next == c1.next
    ensures Matches(a, c, c1, lens) && Matches(b, c1, c2, lens)
  {
    forall j | c1.next <= j < c2.next
      ensures lens[j] == b[j - c1.next].len
    {
      assert (a + b)[j - c.next] == b[j - c1.next];
    }
  }

  // ---------------------------------------------------------------- the fallback

  /** A tree without placeholders is not changed by filling. */
  lemma {:induction false} FillNothing(v: Value, views: map<nat, Bytes>)
    requires LookAlikeFree(v)
    ensures Fill(v, views) == v
    decreases v, 1
  {
    if IsContainer(v) {
      FillAllNothing(v.items, views);
    }
  }

  lemma {:induction false} FillAllNothing(items: seq<Value>, views: map<nat, Bytes>)
    requires RefsAll(items) == []
    ensures FillAll(items, views) == items
    decreases items, 0
  {
    if items != [] {
      FillNothing(items[0], views);
      FillAllNothing(items[1..], views);
    }
  }

  predicate Extends(small: map<nat, Bytes>, large: map<nat, Bytes>) {
    forall i :: i in small ==> i in large && large[i] == small[i]
  }

  /** The swap succeeds exactly when every index has a view, and then it is a fill. */
  lemma {:induction false} ByIndexFills(v: Value, views: map<nat, Bytes>, large: map<nat, Bytes>)
    requires Extends(views, large)
    ensures ByIndex(v, views).Ok? <==> IndicesIn(Refs(v), views)
    ensures ByIndex(v, views).Ok? ==> ByIndex(v, views).value == Fill(v, large)
    decreases v, 1
  {
    if IsPlaceholder(v) {
      assert Refs(v) == [RefOf(v)];
      assert RefOf(v).index in views <==> Refs(v)[0].index in views;
    } else if IsContainer(v) {
      ByIndexAllFills(v.items, views, large);
    }
  }

  lemma {:induction false} ByIndexAllFills(items: seq<Value>, views: map<nat, Bytes>, large: map<nat, Bytes>)
    requires Extends(views, large)
    ensures ByIndexAll(items, views).Ok? <==> IndicesIn(RefsAll(items), views)
    ensures ByIndexAll(items, views).Ok? ==> ByIndexAll(items, views).value == FillAll(items, large)
    decreases items, 0
  {
    if items != [] {
      var here, later := Refs(items[0]), RefsAll(items[1..]);
      ByIndexFills(items[0], views, large);
      ByIndexAllFills(items[1..], views, large);
      assert IndicesIn(here + later, views) <==> IndicesIn(here, views) && IndicesIn(later, views) by {
        assert forall j :: 0 <= j < |here| ==> (here + later)[j] == here[j];
        assert forall j :: 0 <= j < |later| ==> (here + later)[|here| + j] == later[j];
      }
    }
  }

  lemma {:induction false} LayOutKeys(
      i: nat, end: nat, offset: nat, lengths: map<nat, nat>, data: Bytes, views: map<nat, Bytes>)
    requires offset <= |data|
    requires LayOut(i, end, offset, lengths, data, views).Ok?
    ensures forall k :: i <= k < end ==> k in lengths
    decreases end - i
  {
    if i < end {
      var stop := offset + lengths[i];
      LayOutKeys(i + 1, end, stop, lengths, data, views[i := data[offset..stop]]);
    }
  }

  /** A successful layout places tile k for every k from i, and keeps the views it was given. */
  lemma {:induction false} LayOutSound(
      i: nat, offset: nat, lengths: map<nat, nat>, data: Bytes, views: map<nat, Bytes>, base: nat, lens: seq<nat>)
    requires offset <= |data| && i <= |lens| && offset == TileStart(base, lens, i)
    requires forall k :: i <= k < |lens| ==> k in lengths && lengths[k] == lens[k]
    requires LayOut(i, |lens|, offset, lengths, data, views).Ok?
    ensures var (all, last) := LayOut(i, |lens|, offset, lengths, data, views).value;
            && last == base + Sum(lens)
            && (Tiles(lens, base, |data|) ==>
                forall k: nat :: k in all ==>
                  (i <= k < |lens| && all[k] == Tile(data, base, lens, k)) ||
                  (!(i <= k < |lens|) && k in views && all[k] == views[k]))
            && (forall k: nat :: k in views || i <= k < |lens| ==> k in all)
    decreases |lens| - i
  {
    if i < |lens| {
      var stop := offset + lengths[i];
      SumPrefix(lens, i);
      LayOutSound(i + 1, stop, lengths, data, views[i := data[offset..stop]], base, lens);
    } else {
      assert lens[..i] == lens;
    }
  }

  lemma {:induction false} LayOutComplete(
      i: nat, offset: nat, lengths: map<nat, nat>, data: Bytes, views: map<nat, Bytes>, base: nat, lens: seq<nat>)
    requires Tiles(lens, base, |data|) && i <= |lens| && offset == TileStart(base, lens, i) && offset <= |data|
    requires forall k :: i <= k < |lens| ==> k in lengths && lengths[k] == lens[k]
    ensures LayOut(i, |lens|, offset, lengths, data, views).Ok?
    ensures LayOut(i, |lens|, offset, lengths, data, views).value.1 == |data|
    decreases |lens| - i
  {
    if i < |lens| {
      SumPrefix(lens, i);
      LayOutComplete(i + 1, offset + lens[i], lengths, data, views[i := data[offset..offset + lens[i]]], base, lens);
    } else {
      assert lens[..i] == lens;
    }
  }
}
