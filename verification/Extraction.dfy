/** Moving large binaries out of a value tree (python/camera_ui_rpc/codec.py, node/src/codec.ts). */
module Extraction {
  import opened Wire
  import opened Values

  const BINARY_EXTRACT_THRESHOLD: nat := 16384

  predicate IsExtractable(v: Value) {
    v.Bin? && |v.bytes| >= BINARY_EXTRACT_THRESHOLD
  }

  /** The transformed tree and the segments it gave up, numbered from `n`. */
  function Extract(v: Value, n: nat): (Value, seq<Bytes>)
    decreases v, 1
  {
    if IsExtractable(v) then (Placeholder(n, |v.bytes|), [v.bytes])
    else if IsContainer(v) then
      var (items, segments) := ExtractAll(v.items, n);
      (WithItems(v, items), segments)
    else (v, [])
  }

  function ExtractAll(items: seq<Value>, n: nat): (r: (seq<Value>, seq<Bytes>))
    ensures |r.0| == |items|
    decreases items, 0
  {
    if items == [] then ([], [])
    else
      var (first, here) := Extract(items[0], n);
      var (rest, later) := ExtractAll(items[1..], n + |here|);
      ([first] + rest, here + later)
  }

  /** The shared list the walk appends its segments to. */
  class SegmentList {
    var segments: seq<Bytes>

    constructor ()
      ensures segments == []
    {
      segments := [];
    }
  }

  /**
   * The depth-first copy-on-write walk. `changed` stands for the source's
   * identity test: unchanged subtrees are returned as they are.
   */
  method ExtractBinaries(v: Value, out: SegmentList) returns (transformed: Value, changed: bool)
    modifies out
    ensures transformed == Extract(v, |old(out.segments)|).0
    ensures out.segments == old(out.segments) + Extract(v, |old(out.segments)|).1
    ensures changed <==> out.segments != old(out.segments)
    ensures !changed ==> transformed == v
    decreases v, 1
  {
    if IsExtractable(v) {
      transformed := Placeholder(|out.segments|, |v.bytes|);
      out.segments := out.segments + [v.bytes];
      return transformed, true;
    }
    if IsContainer(v) {
      var items;
      items, changed := ExtractItems(v.items, out);
      return if changed then WithItems(v, items) else v, changed;
    }
    return v, false;
  }

  /** The loop over a container's items; the copy is made at the first change. */
  method ExtractItems(items: seq<Value>, out: SegmentList) returns (copy: seq<Value>, changed: bool)
    modifies out
    ensures copy == ExtractAll(items, |old(out.segments)|).0
    ensures out.segments == old(out.segments) + ExtractAll(items, |old(out.segments)|).1
    ensures changed <==> out.segments != old(out.segments)
    ensures !changed ==> copy == items
    decreases items, 0
  {
    ghost var before := out.segments;
    ghost var done: seq<Value>, added: seq<Bytes> := [], [];
    copy, changed := items, false;
    HalfwayStarts(items, |before|);
    for i := 0 to |items|
      invariant out.segments == before + added
      invariant Halfway(items, i, |before|, done, added) && copy == done + items[i..]
      invariant changed <==> added != []
      invariant !changed ==> copy == items
    {
      ExtractNext(items, i, |before|, done, added);
      AppendAgain(before, added, Extract(items[i], |before| + |added|).1);
      var transformed, different := ExtractBinaries(items[i], out);
      if different {
        copy := copy[i := transformed];
        changed := true;
      }
      done, added := done + [transformed], added + Extract(items[i], |before| + |added|).1;
    }
    HalfwayEnds(items, |before|, done, added);
    assert |out.segments| == |before| + |added|;
  }

  lemma AppendAgain(a: seq<Bytes>, b: seq<Bytes>, c: seq<Bytes>)
    ensures (a + b) + c == a + (b + c)
  {
  }

  /** The loop's state after `i` items: their results so far, and the rest still to do. */
  ghost predicate Halfway(items: seq<Value>, i: nat, n: nat, done: seq<Value>, added: seq<Bytes>)
    requires i <= |items|
  {
    && |done| == i
    && ExtractAll(items, n).0 == done + ExtractAll(items[i..], n + |added|).0
    && ExtractAll(items, n).1 == added + ExtractAll(items[i..], n + |added|).1
  }

  lemma HalfwayStarts(items: seq<Value>, n: nat)
    ensures Halfway(items, 0, n, [], []) && [] + items[0..] == items
  {
    assert items[0..] == items;
  }

  lemma HalfwayEnds(items: seq<Value>, n: nat, done: seq<Value>, added: seq<Bytes>)
    requires Halfway(items, |items|, n, done, added)
    ensures done + items[|items|..] == done && (done, added) == ExtractAll(items, n)
  {
    assert items[|items|..] == [];
    assert done + [] == done && added + [] == added;
  }

  /** One turn of the loop over a container. */
  lemma ExtractNext(items: seq<Value>, i: nat, n: nat, done: seq<Value>, added: seq<Bytes>)
    requires i < |items| && Halfway(items, i, n, done, added)
    ensures var (first, here) := Extract(items[i], n + |added|);
            && Halfway(items, i + 1, n, done + [first], added + here)
            && (done + items[i..])[i := first] == (done + [first]) + items[i + 1..]
            && (first == items[i] ==> done + items[i..] == (done + [first]) + items[i + 1..])
  {
    assert items[i..][0] == items[i] && items[i..][1..] == items[i + 1..];
  }

  /** The placeholders an extraction leaves behind, numbered in traversal order. */
  function Numbered(n: nat, segments: seq<Bytes>): (r: seq<Ref>)
    ensures |r| == |segments|
    ensures forall i :: 0 <= i < |r| ==> r[i] == Ref(n + i, |segments[i]|)
  {
    seq(|segments|, i requires 0 <= i < |segments| => Ref(n + i, |segments[i]|))
  }

  /** The table holds the given segments under the indices from `n`. */
  predicate Supplies(views: map<nat, Bytes>, n: nat, segments: seq<Bytes>) {
    forall k :: n <= k < n + |segments| ==> k in views && views[k] == segments[k - n]
  }

  /** Extraction turns a non-placeholder into a placeholder only where it extracts. */
  lemma ExtractKeepsShape(v: Value, n: nat)
    requires IsContainer(v) && !IsPlaceholder(v)
    ensures !IsPlaceholder(Extract(v, n).0)
  {
    var items := ExtractAll(v.items, n).0;
    forall i | 0 <= i < |items| && items[i].Int?
      ensures v.items[i] == items[i]
    {
      ExtractAllAt(v.items, n, i);
    }
  }

  lemma {:induction false} ExtractAllAt(items: seq<Value>, n: nat, i: nat)
    requires i < |items|
    ensures exists m: nat :: ExtractAll(items, n).0[i] == Extract(items[i], m).0
  {
    if i == 0 {
      assert ExtractAll(items, n).0[0] == Extract(items[0], n).0;
    } else {
      var m := n + |Extract(items[0], n).1|;
      ExtractAllAt(items[1..], m, i - 1);
      assert ExtractAll(items, n).0[i] == ExtractAll(items[1..], m).0[i - 1];
    }
  }

  /** Indices are n, n+1, ... in traversal order, each with its segment's length. */
  lemma {:induction false} ExtractNumbers(v: Value, n: nat)
    requires LookAlikeFree(v)
    ensures Refs(Extract(v, n).0) == Numbered(n, Extract(v, n).1)
    decreases v, 1
  {
    if !IsExtractable(v) && IsContainer(v) {
      ExtractKeepsShape(v, n);
      ExtractAllNumbers(v.items, n);
    }
  }

  lemma {:induction false} ExtractAllNumbers(items: seq<Value>, n: nat)
    requires RefsAll(items) == []
    ensures RefsAll(ExtractAll(items, n).0) == Numbered(n, ExtractAll(items, n).1)
    decreases items, 0
  {
    if items != [] {
      var (first, here) := Extract(items[0], n);
      var (rest, later) := ExtractAll(items[1..], n + |here|);
      ExtractNumbers(items[0], n);
      ExtractAllNumbers(items[1..], n + |here|);
      assert ([first] + rest)[1..] == rest;
    }
  }

  /** Putting the segments back restores the original tree. */
  lemma {:induction false} FillExtract(v: Value, n: nat, views: map<nat, Bytes>)
    requires LookAlikeFree(v)
    requires Supplies(views, n, Extract(v, n).1)
    ensures Fill(Extract(v, n).0, views) == v
    decreases v, 1
  {
    if IsExtractable(v) {
      assert n in views;
    } else if IsContainer(v) {
      ExtractKeepsShape(v, n);
      FillExtractAll(v.items, n, views);
    }
  }

  lemma {:induction false} FillExtractAll(items: seq<Value>, n: nat, views: map<nat, Bytes>)
    requires RefsAll(items) == []
    requires Supplies(views, n, ExtractAll(items, n).1)
    ensures FillAll(ExtractAll(items, n).0, views) == items
    decreases items, 0
  {
    if items != [] {
      var (first, here) := Extract(items[0], n);
      var (rest, later) := ExtractAll(items[1..], n + |here|);
      SuppliesBoth(views, n, here, later);
      FillExtract(items[0], n, views);
      FillExtractAll(items[1..], n + |here|, views);
      FillAllCons(first, rest, views);
      assert items == [items[0]] + items[1..];
    }
  }

  lemma SuppliesBoth(views: map<nat, Bytes>, n: nat, here: seq<Bytes>, later: seq<Bytes>)
    requires Supplies(views, n, here + later)
    ensures Supplies(views, n, here) && Supplies(views, n + |here|, later)
  {
    forall k: nat | n <= k < n + |here|
      ensures k in views && views[k] == here[k - n]
    {
      assert views[k] == (here + later)[k - n];
    }
    forall k: nat | n + |here| <= k < n + |here| + |later|
      ensures k in views && views[k] == later[k - (n + |here|)]
    {
      assert views[k] == (here + later)[k - n];
    }
  }

  lemma FillAllCons(first: Value, rest: seq<Value>, views: map<nat, Bytes>)
    ensures FillAll([first] + rest, views) == [Fill(first, views)] + FillAll(rest, views)
  {
    assert ([first] + rest)[1..] == rest;
  }

  /** With nothing to extract the tree is returned as it was. */
  lemma {:induction false} ExtractNothing(v: Value, n: nat)
    requires Extract(v, n).1 == []
    ensures Extract(v, n).0 == v
    decreases v, 1
  {
    if IsContainer(v) {
      ExtractAllNothing(v.items, n);
    }
  }

  lemma {:induction false} ExtractAllNothing(items: seq<Value>, n: nat)
    requires ExtractAll(items, n).1 == []
    ensures ExtractAll(items, n).0 == items
    decreases items, 0
  {
    if items != [] {
      ExtractNothing(items[0], n);
      ExtractAllNothing(items[1..], n);
    }
  }

  /** A tree holding no binary of 16384 bytes or more. */
  predicate Small(v: Value)
    decreases v
  {
    (v.Bin? ==> |v.bytes| < 16384) && (IsContainer(v) ==> forall x :: x in v.items ==> Small(x))
  }

  lemma {:induction false} ExtractIsSmall(v: Value, n: nat)
    ensures Small(Extract(v, n).0)
    decreases v, 1
  {
    if !IsExtractable(v) && IsContainer(v) {
      ExtractAllIsSmall(v.items, n);
    }
  }

  lemma {:induction false} ExtractAllIsSmall(items: seq<Value>, n: nat)
    ensures forall x :: x in ExtractAll(items, n).0 ==> Small(x)
    decreases items, 0
  {
    if items != [] {
      ExtractIsSmall(items[0], n);
      ExtractAllIsSmall(items[1..], n + |Extract(items[0], n).1|);
    }
  }

  /** Nothing is extracted exactly from the trees without a large binary. */
  lemma {:induction false} ExtractsNothingIffSmall(v: Value, n: nat)
    ensures Extract(v, n).1 == [] <==> Small(v)
    decreases v, 1
  {
    if !IsExtractable(v) && IsContainer(v) {
      ExtractsNothingIffAllSmall(v.items, n);
    }
  }

  lemma {:induction false} ExtractsNothingIffAllSmall(items: seq<Value>, n: nat)
    ensures ExtractAll(items, n).1 == [] <==> forall x :: x in items ==> Small(x)
    decreases items, 0
  {
    if items != [] {
      ExtractsNothingIffSmall(items[0], n);
      ExtractsNothingIffAllSmall(items[1..], n + |Extract(items[0], n).1|);
      assert forall x :: x in items <==> x == items[0] || x in items[1..];
    }
  }
}
