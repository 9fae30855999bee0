/** The value trees a message carries, and the placeholder maps inside an envelope. */
module Values {
  import opened Wire

  /** A map keeps its keys in order beside its items, as the decoded dictionaries do. */
  datatype Value =
    | Nil
    | Bool(b: bool)
    | Int(n: int)
    | Str(s: string)
    | Bin(bytes: Bytes)
    | List(items: seq<Value>)
    | Map(keys: seq<string>, items: seq<Value>)

  predicate IsContainer(v: Value) {
    v.List? || v.Map?
  }

  function WithItems(v: Value, items: seq<Value>): Value
    requires IsContainer(v)
  {
    if v.List? then List(items) else Map(v.keys, items)
  }

  const PLACEHOLDER_KEY := "__cui_bin__"
  const LENGTH_KEY := "l"

  /** Exactly the two keys, in either order, both with non-negative integers. */
  predicate IsPlaceholder(v: Value) {
    && v.Map?
    && (v.keys == [PLACEHOLDER_KEY, LENGTH_KEY] || v.keys == [LENGTH_KEY, PLACEHOLDER_KEY])
    && |v.items| == 2
    && v.items[0].Int? && v.items[0].n >= 0
    && v.items[1].Int? && v.items[1].n >= 0
  }

  /** A placeholder's segment index and declared length. */
  datatype Ref = Ref(index: nat, len: nat)

  function RefOf(v: Value): Ref
    requires IsPlaceholder(v)
  {
    if v.keys[0] == PLACEHOLDER_KEY then Ref(v.items[0].n, v.items[1].n)
    else Ref(v.items[1].n, v.items[0].n)
  }

  function Placeholder(index: nat, len: nat): (v: Value)
    ensures IsPlaceholder(v) && RefOf(v) == Ref(index, len)
  {
    Map([PLACEHOLDER_KEY, LENGTH_KEY], [Int(index), Int(len)])
  }

  predicate InEitherOrder(v: Value, index: nat, len: nat) {
    || v == Map(["__cui_bin__", "l"], [Int(index), Int(len)])
    || v == Map(["l", "__cui_bin__"], [Int(len), Int(index)])
  }

  /** The strict check, exactly: the two keys in either order, and no other map, with natural numbers under them. */
  lemma PlaceholdersAre(v: Value)
    ensures IsPlaceholder(v) <==>
            exists index: nat, len: nat :: InEitherOrder(v, index, len)
    ensures forall index: nat, len: nat :: InEitherOrder(v, index, len) ==> RefOf(v) == Ref(index, len)
  {
    if IsPlaceholder(v) {
      var r := RefOf(v);
      assert v.items == [v.items[0], v.items[1]];
      assert InEitherOrder(v, r.index, r.len);
    }
    assert |"l"| == 1 && |"__cui_bin__"| == 11;
  }

  /** The placeholders of a tree in traversal order. */
  function Refs(v: Value): seq<Ref>
    decreases v, 1
  {
    if IsPlaceholder(v) then [RefOf(v)]
    else if IsContainer(v) then RefsAll(v.items)
    else []
  }

  function RefsAll(items: seq<Value>): seq<Ref>
    decreases items, 0
  {
    if items == [] then [] else Refs(items[0]) + RefsAll(items[1..])
  }

  /** No map of the tree could be mistaken for a placeholder. */
  predicate LookAlikeFree(v: Value) {
    Refs(v) == []
  }

  /** Put view i in the place of every placeholder for segment i; leave the others. */
  function Fill(v: Value, views: map<nat, Bytes>): Value
    decreases v, 1
  {
    if IsPlaceholder(v) then
      if RefOf(v).index in views then Bin(views[RefOf(v).index]) else v
    else if IsContainer(v) then WithItems(v, FillAll(v.items, views))
    else v
  }

  function FillAll(items: seq<Value>, views: map<nat, Bytes>): (r: seq<Value>)
    ensures |r| == |items|
    ensures forall i :: 0 <= i < |r| ==> r[i] == Fill(items[i], views)
    decreases items, 0
  {
    if items == [] then [] else [Fill(items[0], views)] + FillAll(items[1..], views)
  }

  predicate IndicesIn(refs: seq<Ref>, views: map<nat, Bytes>) {
    forall j :: 0 <= j < |refs| ==> refs[j].index in views
  }

  /** A tree with every placeholder filled has none left. */
  lemma {:induction false} FillLeavesNone(v: Value, views: map<nat, Bytes>)
    requires IndicesIn(Refs(v), views)
    ensures LookAlikeFree(Fill(v, views))
    decreases v, 1
  {
    if IsPlaceholder(v) {
      assert Refs(v)[0].index in views;
    } else if IsContainer(v) {
      FillKeepsShape(v, views);
      FillAllLeavesNone(v.items, views);
    }
  }

  lemma FillKeepsShape(v: Value, views: map<nat, Bytes>)
    requires IsContainer(v) && !IsPlaceholder(v)
    ensures !IsPlaceholder(Fill(v, views))
  {
    var items := FillAll(v.items, views);
    if |items| == 2 {
      assert items[0] == Fill(v.items[0], views) && items[1] == Fill(v.items[1], views);
    }
  }

  lemma {:induction false} FillAllLeavesNone(items: seq<Value>, views: map<nat, Bytes>)
    requires IndicesIn(RefsAll(items), views)
    ensures RefsAll(FillAll(items, views)) == []
    decreases items, 0
  {
    if items != [] {
      var here, rest := Refs(items[0]), RefsAll(items[1..]);
      assert forall j :: 0 <= j < |here| ==> here[j] == (here + rest)[j];
      assert forall j :: 0 <= j < |rest| ==> rest[j] == (here + rest)[|here| + j];
      FillLeavesNone(items[0], views);
      FillAllLeavesNone(items[1..], views);
      assert FillAll(items, views)[1..] == FillAll(items[1..], views);
    }
  }

  /** MessagePack: two partial functions. Lists and maps, and byte views, decode to the values above. */
  datatype Msgpack = Msgpack(encode: Value -> Option<Bytes>, decode: Bytes -> Option<Value>)

  const MAGIC: Bytes := [0x43, 0x55, 0x49, 0x42]
  const HEADER_SIZE: nat := 8

  /**
   * Decoding inverts encoding, and no encoding of eight or more bytes starts
   * with the frame magic: 0x43 alone is a one-byte integer.
   */
  ghost predicate Lawful(mp: Msgpack) {
    forall v :: mp.encode(v).Some? ==>
      var e := mp.encode(v).value;
      mp.decode(e) == Some(v) && !HasMagic(e)
  }

  predicate HasMagic(data: Bytes) {
    |data| >= HEADER_SIZE && data[..4] == MAGIC
  }
}
