/**
 * Putting the segments of a frame back into its envelope: the one-pass
 * prefix-sum restorer with its index-table fallback
 * (python/camera_ui_rpc/codec.py, node/src/codec.ts).
 */
module Restoration {
  import opened Wire
  import opened Values

  /** The restore state: start of the next expected segment, its index, and the order flag. */
  datatype Cursor = Cursor(offset: nat, next: nat, outOfOrder: bool)

  // ---------------------------------------------------------------- sequential pass

  function Sequential(v: Value, data: Bytes, c: Cursor): (r: Result<(Value, Cursor)>)
    ensures r.Ok? && r.value.0.Int? ==> r.value.0 == v
    decreases v, 1
  {
    if IsPlaceholder(v) then
      var ref := RefOf(v);
      if c.outOfOrder || ref.index != c.next then Ok((v, c.(outOfOrder := true)))
      else
        var end := c.offset + ref.len;
        if end > |data| then Err(SegmentExceedsPayload(c.next))
        else Ok((Bin(data[c.offset..end]), Cursor(end, c.next + 1, false)))
    else if IsContainer(v) then
      match SequentialAll(v.items, data, c)
      case Ok((items, c')) => Ok((WithItems(v, items), c'))
      case Err(e) => Err(e)
    else Ok((v, c))
  }

  function SequentialAll(items: seq<Value>, data: Bytes, c: Cursor): (r: Result<(seq<Value>, Cursor)>)
    ensures r.Ok? ==> |r.value.0| == |items|
    ensures r.Ok? ==> forall i :: 0 <= i < |items| && r.value.0[i].Int? ==> r.value.0[i] == items[i]
    decreases items, 0
  {
    if items == [] then Ok(([], c))
    else
      match Sequential(items[0], data, c)
      case Err(e) => Err(e)
      case Ok((first, c')) =>
        match SequentialAll(items[1..], data, c')
        case Err(e) => Err(e)
        case Ok((rest, c'')) => Ok(([first] + rest, c''))
  }

  /** The mutable cursor the pass threads through the tree. */
  class RestoreState {
    var offset: nat
    var next: nat
    var outOfOrder: bool

    constructor (offset: nat)
      ensures Abs() == Cursor(offset, 0, false)
    {
      this.offset, next, outOfOrder := offset, 0, false;
    }

    function Abs(): Cursor
      reads this
    {
      Cursor(offset, next, outOfOrder)
    }
  }

  method RestoreSequential(v: Value, data: Bytes, state: RestoreState) returns (r: Result<Value>)
    modifies state
    ensures var want := Sequential(v, data, old(state.Abs()));
            match r
            case Ok(v') => want == Ok((v', state.Abs()))
            case Err(e) => want == Err(e)
    decreases v, 1
  {
    if IsPlaceholder(v) {
      var ref := RefOf(v);
      if state.outOfOrder || ref.index != state.next {
        state.outOfOrder := true;
        return Ok(v);
      }
      var end := state.offset + ref.len;
      if end > |data| {
        return Err(SegmentExceedsPayload(state.next));
      }
      var view := data[state.offset..end];
      state.offset := end;
      state.next := state.next + 1;
      return Ok(Bin(view));
    }
    if IsContainer(v) {
      var items := RestoreItems(v.items, data, state);
      match items {
        case Ok(items) => return Ok(WithItems(v, items));
        case Err(e) => return Err(e);
      }
    }
    return Ok(v);
  }

  /** The loop over a container, overwriting each item with its restored value. */
  method RestoreItems(items: seq<Value>, data: Bytes, state: RestoreState) returns (r: Result<seq<Value>>)
    modifies state
    ensures var want := SequentialAll(items, data, old(state.Abs()));
            match r
            case Ok(items') => want == Ok((items', state.Abs()))
            case Err(e) => want == Err(e)
    decreases items, 0
  {
    var restored := items;
    ghost var want := SequentialAll(items, data, state.Abs());
    PrependNothing(want);
    assert items[0..] == items;
    for i := 0 to |items|
      invariant |restored| == |items| && restored[i..] == items[i..]
      invariant want == Prepend(restored[..i], SequentialAll(items[i..], data, state.Abs()))
    {
      assert items[i..][0] == items[i] && items[i..][1..] == items[i + 1..];
      var first := RestoreSequential(items[i], data, state);
      match first {
        case Err(e) => return Err(e);
        case Ok(first) =>
          ghost var before := restored[..i];
          PrependTwice(before, [first], SequentialAll(items[i + 1..], data, state.Abs()));
          restored := restored[i := first];
          assert restored[..i + 1] == before + [first];
      }
    }
    assert items[|items|..] == [];
    assert restored[..|items|] + [] == restored;
    return Ok(restored);
  }

  ghost function Prepend(done: seq<Value>, r: Result<(seq<Value>, Cursor)>): Result<(seq<Value>, Cursor)> {
    match r
    case Err(e) => Err(e)
    case Ok((items, c)) => Ok((done + items, c))
  }

  lemma PrependNothing(r: Result<(seq<Value>, Cursor)>)
    ensures Prepend([], r) == r
  {
    if r.Ok? {
      assert [] + r.value.0 == r.value.0;
    }
  }

  lemma PrependTwice(a: seq<Value>, b: seq<Value>, r: Result<(seq<Value>, Cursor)>)
    ensures Prepend(a, Prepend(b, r)) == Prepend(a + b, r)
  {
    if r.Ok? {
      assert a + (b + r.value.0) == (a + b) + r.value.0;
    }
  }

  // ---------------------------------------------------------------- fallback passes

  /** Record lengths by index, the last placeholder of an index winning. */
  function Collect(refs: seq<Ref>, lengths: map<nat, nat>): map<nat, nat> {
    if refs == [] then lengths else Collect(refs[1..], lengths[refs[0].index := refs[0].len])
  }

  function LengthTable(refs: seq<Ref>): map<nat, nat> {
    Collect(refs, map[])
  }

  lemma {:induction false} CollectConcat(a: seq<Ref>, b: seq<Ref>, lengths: map<nat, nat>)
    ensures Collect(a + b, lengths) == Collect(b, Collect(a, lengths))
  {
    if a == [] {
      assert a + b == b;
    } else {
      assert (a + b)[1..] == a[1..] + b;
      CollectConcat(a[1..], b, lengths[a[0].index := a[0].len]);
    }
  }

  method CollectSegmentLengths(v: Value, lengths: map<nat, nat>) returns (out: map<nat, nat>)
    ensures out == Collect(Refs(v), lengths)
    decreases v
  {
    if IsPlaceholder(v) {
      return lengths[RefOf(v).index := RefOf(v).len];
    }
    out := lengths;
    if IsContainer(v) {
      var i := 0;
      while i < |v.items|
        invariant i <= |v.items|
        invariant Collect(RefsAll(v.items), lengths) == Collect(RefsAll(v.items[i..]), out)
      {
        assert v.items[i..][0] == v.items[i] && v.items[i..][1..] == v.items[i + 1..];
        CollectConcat(Refs(v.items[i]), RefsAll(v.items[i + 1..]), out);
        out := CollectSegmentLengths(v.items[i], out);
        i := i + 1;
      }
    }
  }

  /** One past the largest index. */
  function IndexEnd(refs: seq<Ref>): (end: nat)
    ensures forall j :: 0 <= j < |refs| ==> refs[j].index < end
    ensures end > 0 ==> exists j :: 0 <= j < |refs| && refs[j].index == end - 1
  {
    if refs == [] then 0
    else
      var rest := IndexEnd(refs[1..]);
      assert rest > 0 ==> exists j :: 0 <= j < |refs[1..]| && refs[1..][j].index == rest - 1;
      assert forall j :: 0 <= j < |refs[1..]| ==> refs[1..][j] == refs[j + 1];
      if refs[0].index >= rest then refs[0].index + 1 else rest
  }

  lemma {:induction false} CollectKeys(refs: seq<Ref>, lengths: map<nat, nat>, i: nat)
    ensures i in Collect(refs, lengths) <==> i in lengths || exists j :: 0 <= j < |refs| && refs[j].index == i
    ensures i in Collect(refs, lengths) ==>
              Ref(i, Collect(refs, lengths)[i]) in refs || (i in lengths && Collect(refs, lengths)[i] == lengths[i])
  {
    if refs != [] {
      CollectKeys(refs[1..], lengths[refs[0].index := refs[0].len], i);
      assert refs == [refs[0]] + refs[1..];
      if j :| 0 <= j < |refs| && refs[j].index == i {
        assert j > 0 ==> refs[1..][j - 1].index == i;
      }
    }
  }

  /** The table's keys are the indices, each with the length of one of its placeholders. */
  lemma LengthTableKeys(refs: seq<Ref>, i: nat)
    ensures i in LengthTable(refs) <==> exists j :: 0 <= j < |refs| && refs[j].index == i
    ensures i in LengthTable(refs) ==> Ref(i, LengthTable(refs)[i]) in refs
  {
    CollectKeys(refs, map[], i);
  }

  method MaxKeyEnd(lengths: map<nat, nat>, ghost refs: seq<Ref>) returns (end: nat)
    requires lengths == LengthTable(refs)
    ensures end == IndexEnd(refs)
  {
    end := 0;
    var todo := lengths.Keys;
    while todo != {}
      invariant todo <= lengths.Keys
      invariant forall k: nat :: k in lengths && k !in todo ==> k < end
      invariant end > 0 ==> end - 1 in lengths
    {
      var i :| i in todo;
      if i >= end {
        end := i + 1;
      }
      todo := todo - {i};
    }
    IndexEndIsKeyEnd(refs, end);
  }

  lemma IndexEndIsKeyEnd(refs: seq<Ref>, end: nat)
    requires forall k: nat :: k in LengthTable(refs) ==> k < end
    requires end > 0 ==> end - 1 in LengthTable(refs)
    ensures end == IndexEnd(refs)
  {
    var bound := IndexEnd(refs);
    if end > 0 {
      LengthTableKeys(refs, end - 1);
    }
    if bound > 0 {
      LengthTableKeys(refs, bound - 1);
      assert bound - 1 in LengthTable(refs);
    }
  }

  /** Add the views of segments i .. end-1, laid back to back from `offset`. */
  function LayOut(i: nat, end: nat, offset: nat, lengths: map<nat, nat>, data: Bytes, views: map<nat, Bytes>)
    : Result<(map<nat, Bytes>, nat)>
    requires offset <= |data|
    decreases end - i
  {
    if i >= end then Ok((views, offset))
    else if i !in lengths then Err(MissingPlaceholder(i))
    else
      var stop := offset + lengths[i];
      if stop > |data| then Err(SegmentExceedsPayload(i))
      else LayOut(i + 1, end, stop, lengths, data, views[i := data[offset..stop]])
  }

  /** Swap every placeholder for its view; an index without one is a key error. */
  function ByIndex(v: Value, views: map<nat, Bytes>): Result<Value>
    decreases v, 1
  {
    if IsPlaceholder(v) then
      var i := RefOf(v).index;
      if i in views then Ok(Bin(views[i])) else Err(MissingView(i))
    else if IsContainer(v) then
      match ByIndexAll(v.items, views)
      case Ok(items) => Ok(WithItems(v, items))
      case Err(e) => Err(e)
    else Ok(v)
  }

  function ByIndexAll(items: seq<Value>, views: map<nat, Bytes>): Result<seq<Value>>
    decreases items, 0
  {
    if items == [] then Ok([])
    else
      match ByIndex(items[0], views)
      case Err(e) => Err(e)
      case Ok(first) =>
        match ByIndexAll(items[1..], views)
        case Err(e) => Err(e)
        case Ok(rest) => Ok([first] + rest)
  }

  method RestoreByIndex(v: Value, views: map<nat, Bytes>) returns (r: Result<Value>)
    ensures r == ByIndex(v, views)
    decreases v
  {
    if IsPlaceholder(v) {
      var i := RefOf(v).index;
      return if i in views then Ok(Bin(views[i])) else Err(MissingView(i));
    }
    if !IsContainer(v) {
      return Ok(v);
    }
    var restored := v.items;
    assert v.items[0..] == v.items;
    assert ByIndexAll(v.items, views).Ok? ==> [] + ByIndexAll(v.items, views).value == ByIndexAll(v.items, views).value;
    for i := 0 to |v.items|
      invariant |restored| == |v.items| && restored[i..] == v.items[i..]
      invariant ByIndexAll(v.items, views) ==
                match ByIndexAll(v.items[i..], views)
                case Err(e) => Err(e)
                case Ok(rest) => Ok(restored[..i] + rest)
    {
      assert v.items[i..][0] == v.items[i] && v.items[i..][1..] == v.items[i + 1..];
      var item := RestoreByIndex(v.items[i], views);
      match item {
        case Err(e) => return Err(e);
        case Ok(item) =>
          ghost var before, rest := restored[..i], ByIndexAll(v.items[i + 1..], views);
          assert rest.Ok? ==> before + ([item] + rest.value) == (before + [item]) + rest.value;
          restored := restored[i := item];
          assert restored[..i + 1] == before + [item];
      }
    }
    assert restored[..|v.items|] + [] == restored;
    return Ok(WithItems(v, restored));
  }

  /** The fallback: table the remaining placeholders, lay out the rest, swap them in. */
  function Remaining(v: Value, data: Bytes, c: Cursor): Result<(Value, nat)>
    requires c.offset <= |data|
  {
    var refs := Refs(v);
    match LayOut(c.next, IndexEnd(refs), c.offset, LengthTable(refs), data, map[])
    case Err(e) => Err(e)
    case Ok((views, offset)) =>
      match ByIndex(v, views)
      case Err(e) => Err(e)
      case Ok(v') => Ok((v', offset))
  }

  method RestoreRemaining(envelope: Value, data: Bytes, state: RestoreState) returns (r: Result<Value>)
    requires state.offset <= |data|
    modifies state
    ensures var want := Remaining(envelope, data, old(state.Abs()));
            match r
            case Ok(v') => want == Ok((v', state.offset))
            case Err(e) => want == Err(e)
  {
    var lengths := CollectSegmentLengths(envelope, map[]);
    assert lengths == LengthTable(Refs(envelope));
    var end := MaxKeyEnd(lengths, Refs(envelope));
    var views: map<nat, Bytes> := map[];
    var offset: nat := state.offset;
    var i: nat := state.next;
    while i < end
      invariant offset <= |data|
      invariant LayOut(state.next, end, state.offset, lengths, data, map[])
                == LayOut(i, end, offset, lengths, data, views)
    {
      if i !in lengths {
        return Err(MissingPlaceholder(i));
      }
      var stop := offset + lengths[i];
      if stop > |data| {
        return Err(SegmentExceedsPayload(i));
      }
      views := views[i := data[offset..stop]];
      offset := stop;
      i := i + 1;
    }
    state.offset := offset;
    r := RestoreByIndex(envelope, views);
  }

  // ---------------------------------------------------------------- the whole restorer

  /** Restore an envelope whose segments start at `base`; the payload must be used up exactly. */
  function Restore(v: Value, data: Bytes, base: nat): Result<Value>
    requires base <= |data|
  {
    SequentialInBounds(v, data, Cursor(base, 0, false));
    match Sequential(v, data, Cursor(base, 0, false))
    case Err(e) => Err(e)
    case Ok((v', c)) =>
      var done := if c.outOfOrder then Remaining(v', data, c) else Ok((v', c.offset));
      match done
      case Err(e) => Err(e)
      case Ok((r, offset)) => if offset != |data| then Err(PayloadSizeMismatch) else Ok(r)
  }

  method RestoreEnvelope(v: Value, data: Bytes, base: nat) returns (r: Result<Value>)
    requires base <= |data|
    ensures r == Restore(v, data, base)
  {
    var state := new RestoreState(base);
    SequentialInBounds(v, data, Cursor(base, 0, false));
    var envelope := RestoreSequential(v, data, state);
    if envelope.Err? {
      return Err(envelope.error);
    }
    if state.outOfOrder {
      envelope := RestoreRemaining(envelope.value, data, state);
      if envelope.Err? {
        return Err(envelope.error);
      }
    }
    if state.offset != |data| {
      return Err(PayloadSizeMismatch);
    }
    return envelope;
  }

  lemma {:induction false} SequentialInBounds(v: Value, data: Bytes, c: Cursor)
    requires c.offset <= |data|
    ensures Sequential(v, data, c).Ok? ==> Sequential(v, data, c).value.1.offset <= |data|
    decreases v, 1
  {
    if !IsPlaceholder(v) && IsContainer(v) {
      SequentialAllInBounds(v.items, data, c);
    }
  }

  lemma {:induction false} SequentialAllInBounds(items: seq<Value>, data: Bytes, c: Cursor)
    requires c.offset <= |data|
    ensures SequentialAll(items, data, c).Ok? ==> SequentialAll(items, data, c).value.1.offset <= |data|
    decreases items, 0
  {
    if items != [] {
      SequentialInBounds(items[0], data, c);
      if Sequential(items[0], data, c).Ok? {
        SequentialAllInBounds(items[1..], data, Sequential(items[0], data, c).value.1);
      }
    }
  }
}
