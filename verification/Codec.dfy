/** The wire codec: plain MessagePack, or a frame of magic, length, envelope and segments. */
module Codec {
  import opened Wire
  import opened Values
  import opened Extraction
  import opened Restoration
  import opened Tiling
  import FastRestore

  function Frame(envelope: Bytes, segments: seq<Bytes>): Bytes {
    MAGIC + WriteU32(|envelope|) + envelope + Join(segments)
  }

  function Encode(mp: Msgpack, v: Value): Result<Bytes> {
    var (transformed, segments) := Extract(v, 0);
    if segments == [] then
      match mp.encode(v)
      case None => Err(Unencodable)
      case Some(plain) => Ok(plain)
    else
      match mp.encode(transformed)
      case None => Err(Unencodable)
      case Some(envelope) =>
        if |envelope| >= U32_LIMIT then Err(EnvelopeTooLong) else Ok(Frame(envelope, segments))
  }

  method EncodeMessage(mp: Msgpack, v: Value) returns (r: Result<Bytes>)
    ensures r == Encode(mp, v)
  {
    var out := new SegmentList();
    var transformed, _ := ExtractBinaries(v, out);
    assert out.segments == Extract(v, 0).1;
    if out.segments == [] {
      var plain := mp.encode(v);
      return if plain.None? then Err(Unencodable) else Ok(plain.value);
    }
    var envelope := mp.encode(transformed);
    if envelope.None? {
      return Err(Unencodable);
    }
    if |envelope.value| >= U32_LIMIT {
      return Err(EnvelopeTooLong);
    }
    var frame := MAGIC + WriteU32(|envelope.value|) + envelope.value;
    for i := 0 to |out.segments|
      invariant frame + Join(out.segments[i..]) == Frame(envelope.value, out.segments)
    {
      assert out.segments[i..][0] == out.segments[i] && out.segments[i..][1..] == out.segments[i + 1..];
      frame := frame + out.segments[i];
    }
    assert out.segments[|out.segments|..] == [];
    assert frame + [] == frame;
    return Ok(frame);
  }

  function Decode(mp: Msgpack, data: Bytes): Result<Value> {
    if !HasMagic(data) then
      match mp.decode(data)
      case None => Err(Undecodable)
      case Some(v) => Ok(v)
    else
      var base := HEADER_SIZE + ReadU32Sum(data[4..8]);
      if base > |data| then Err(EnvelopeExceedsPayload)
      else
        match mp.decode(data[HEADER_SIZE..base])
        case None => Err(Undecodable)
        case Some(envelope) => Restore(envelope, data, base)
  }

  method DecodeMessage(mp: Msgpack, data: Bytes) returns (r: Result<Value>)
    ensures r == Decode(mp, data)
  {
    if |data| < HEADER_SIZE || data[..4] != MAGIC {
      var plain := mp.decode(data);
      return if plain.None? then Err(Undecodable) else Ok(plain.value);
    }
    var envelopeLength := ReadU32Bits(data[4..8]);
    ReadersAgree(data[4..8]);
    var segmentBase := HEADER_SIZE + envelopeLength;
    if segmentBase > |data| {
      return Err(EnvelopeExceedsPayload);
    }
    var envelope := mp.decode(data[HEADER_SIZE..segmentBase]);
    if envelope.None? {
      return Err(Undecodable);
    }
    r := RestoreEnvelope(envelope.value, data, segmentBase);
  }

  /** The reader finds in a frame what the writer put there. */
  lemma FrameParts(envelope: Bytes, segments: seq<Bytes>)
    requires |envelope| < U32_LIMIT
    ensures var data := Frame(envelope, segments); var base := HEADER_SIZE + |envelope|;
            && HasMagic(data) && data[..4] == [0x43, 0x55, 0x49, 0x42]
            && ReadU32Sum(data[4..8]) == |envelope|
            && base <= |data|
            && data[HEADER_SIZE..base] == envelope
            && data[base..] == Join(segments)
  {
    var data := Frame(envelope, segments);
    assert data[..4] == MAGIC;
    assert data[4..8] == WriteU32(|envelope|);
    U32RoundTrip(|envelope|);
  }

  /** Segments joined after `base` are the tiles their lengths prescribe. */
  lemma JoinTiles(data: Bytes, base: nat, segments: seq<Bytes>)
    requires base <= |data| && data[base..] == Join(segments)
    ensures Tiles(Lengths(segments), base, |data|)
    ensures Supplies(TileMap(data, base, Lengths(segments)), 0, segments)
  {
    JoinLength(segments);
    var lens := Lengths(segments);
    forall i | 0 <= i < |segments|
      ensures Tile(data, base, lens, i) == segments[i]
    {
      JoinTile(data, base, segments, i);
    }
  }

  lemma JoinTile(data: Bytes, base: nat, segments: seq<Bytes>, i: nat)
    requires base <= |data| && data[base..] == Join(segments) && i < |segments|
    requires Tiles(Lengths(segments), base, |data|)
    ensures Tile(data, base, Lengths(segments), i) == segments[i]
  {
    JoinSlice(segments, i);
    SumPrefix(Lengths(segments), i);
    SliceShift(data, base, Sum(Lengths(segments)[..i]), |segments[i]|);
  }

  lemma SliceShift(data: Bytes, base: nat, at: nat, len: nat)
    requires base + at + len <= |data|
    ensures data[base..][at..at + len] == data[base + at..base + at + len]
  {
  }

  /** The tiles of an own frame are its segments. */
  lemma SegmentsAreTiles(envelope: Bytes, segments: seq<Bytes>)
    requires |envelope| < U32_LIMIT
    ensures var data := Frame(envelope, segments); var base := HEADER_SIZE + |envelope|;
            && Tiles(Lengths(segments), base, |data|)
            && Supplies(TileMap(data, base, Lengths(segments)), 0, segments)
  {
    FrameParts(envelope, segments);
    JoinTiles(Frame(envelope, segments), HEADER_SIZE + |envelope|, segments);
  }

  lemma OwnFrameCovered(v: Value)
    requires LookAlikeFree(v)
    ensures var (transformed, segments) := Extract(v, 0);
            Covered(Refs(transformed), Lengths(segments)) && Distinct(Refs(transformed))
  {
    var (transformed, segments) := Extract(v, 0);
    ExtractNumbers(v, 0);
    var refs, lens := Refs(transformed), Lengths(segments);
    forall i | 0 <= i < |lens|
      ensures Ref(i, lens[i]) in refs
    {
      assert refs[i] == Ref(i, lens[i]);
    }
  }

  /** A frame of a tree without look-alikes restores to that tree, and in order. */
  lemma OwnFrameRestores(v: Value, envelope: Bytes)
    requires LookAlikeFree(v) && |envelope| < U32_LIMIT
    ensures var (transformed, segments) := Extract(v, 0);
            var data := Frame(envelope, segments); var base := HEADER_SIZE + |envelope|;
            base <= |data| && Restore(transformed, data, base) == Ok(v)
  {
    var (transformed, segments) := Extract(v, 0);
    var data, base, lens := Frame(envelope, segments), HEADER_SIZE + |envelope|, Lengths(segments);
    FrameParts(envelope, segments);
    SegmentsAreTiles(envelope, segments);
    OwnFrameCovered(v);
    FastRestore.FastIsReference(transformed, data, base);
    ReferenceIs(transformed, data, base, lens);
    FillExtract(v, 0, TileMap(data, base, lens));
  }

  /** An own frame never sets the out-of-order flag: decoding it is one pass. */
  lemma OwnFrameInOrder(v: Value, envelope: Bytes)
    requires LookAlikeFree(v) && |envelope| < U32_LIMIT
    ensures var (transformed, segments) := Extract(v, 0);
            var r := Sequential(transformed, Frame(envelope, segments), Cursor(HEADER_SIZE + |envelope|, 0, false));
            r.Ok? && !r.value.1.outOfOrder
  {
    var (transformed, segments) := Extract(v, 0);
    var data, base := Frame(envelope, segments), HEADER_SIZE + |envelope|;
    OwnFrameRestores(v, envelope);
    SequentialConsumes(transformed, data, Cursor(base, 0, false));
    ExtractNumbers(v, 0);
    InOrderNeverFlags(Refs(transformed), |data|, Cursor(base, 0, false));
  }

  lemma {:induction false} InOrderNeverFlags(refs: seq<Ref>, size: nat, c: Cursor)
    requires !c.outOfOrder && forall j :: 0 <= j < |refs| ==> refs[j].index == c.next + j
    ensures Consume(refs, size, c).Ok? ==> !Consume(refs, size, c).value.outOfOrder
  {
    if refs != [] {
      var c' := Cursor(c.offset + refs[0].len, c.next + 1, false);
      InOrderNeverFlags(refs[1..], size, c');
    }
  }

  /** A frame whose envelope still holds a look-alike never decodes to its value. */
  lemma LookAlikesAreLost(v: Value, envelope: Bytes)
    requires !LookAlikeFree(v) && |envelope| < U32_LIMIT
    ensures var (transformed, segments) := Extract(v, 0);
            var data := Frame(envelope, segments); var base := HEADER_SIZE + |envelope|;
            base <= |data| && Restore(transformed, data, base) != Ok(v)
  {
    var (transformed, segments) := Extract(v, 0);
    var data, base := Frame(envelope, segments), HEADER_SIZE + |envelope|;
    FrameParts(envelope, segments);
    if Restore(transformed, data, base).Ok? {
      var _ := FastRestore.AcceptedFramesTile(transformed, data, base);
    }
  }

  /** Decoding a frame is decoding its envelope and restoring it. */
  lemma DecodeFrame(mp: Msgpack, transformed: Value, envelope: Bytes, segments: seq<Bytes>)
    requires Lawful(mp) && mp.encode(transformed) == Some(envelope) && |envelope| < U32_LIMIT
    ensures var data := Frame(envelope, segments); var base := HEADER_SIZE + |envelope|;
            base <= |data| && Decode(mp, data) == Restore(transformed, data, base)
  {
    FrameParts(envelope, segments);
  }

  /**
   * The round trip, exactly: a value that encodes comes back as itself if and
   * only if nothing was extracted from it or no map in it looks like a
   * placeholder.
   */
  lemma RoundTripIff(mp: Msgpack, v: Value)
    requires Lawful(mp) && Encode(mp, v).Ok?
    ensures Small(v) || LookAlikeFree(v) ==> Decode(mp, Encode(mp, v).value) == Ok(v)
    ensures Decode(mp, Encode(mp, v).value) == Ok(v) ==> Small(v) || LookAlikeFree(v)
  {
    var (transformed, segments) := Extract(v, 0);
    ExtractsNothingIffSmall(v, 0);
    if segments != [] {
      var envelope := mp.encode(transformed).value;
      DecodeFrame(mp, transformed, envelope, segments);
      if LookAlikeFree(v) {
        OwnFrameRestores(v, envelope);
      } else {
        LookAlikesAreLost(v, envelope);
      }
    }
  }

  /**
   * When a value encodes, exactly: without large binaries when it does itself,
   * otherwise when its extracted tree does, in fewer than 2^32 bytes.
   */
  lemma EncodesIff(mp: Msgpack, v: Value)
    ensures Encode(mp, v).Ok? <==>
            if Small(v) then mp.encode(v).Some?
            else mp.encode(Extract(v, 0).0).Some? && |mp.encode(Extract(v, 0).0).value| < 0x1_0000_0000
    ensures !Small(v) && Encode(mp, v).Ok? ==>
              Encode(mp, v).value == Frame(mp.encode(Extract(v, 0).0).value, Extract(v, 0).1)
  {
    ExtractsNothingIffSmall(v, 0);
  }

  /** A message without large binaries is byte-identical to its plain encoding. */
  lemma SmallIsPlain(mp: Msgpack, v: Value)
    requires Small(v) && mp.encode(v).Some?
    ensures Encode(mp, v) == Ok(mp.encode(v).value)
  {
    ExtractsNothingIffSmall(v, 0);
  }
}
