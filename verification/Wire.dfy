/** Bytes, partial results and the little-endian length field of a frame header. */
module Wire {

  type Byte = b: int | 0 <= b < 256

  type Bytes = seq<Byte>

  datatype Option<+T> = None | Some(value: T)

  /** Every failure the codec and the chunk assembler can report. */
  datatype Error =
    | EnvelopeExceedsPayload
    | SegmentExceedsPayload(segment: nat)
    | MissingPlaceholder(segment: nat)
    | MissingView(segment: nat)
    | PayloadSizeMismatch
    | EnvelopeTooLong
    | Unencodable
    | Undecodable
    | ChunkIdMismatch
    | MissingChunk
    | TimedOut
    | Cancelled

  datatype Result<+T> = Ok(value: T) | Err(error: Error)

  const U32_LIMIT: nat := 0x1_0000_0000

  /** A fact, counted. */
  function One(b: bool): nat {
    if b then 1 else 0
  }

  /** The four header bytes of `n`, least significant first: Python's "<I". */
  function WriteU32(n: nat): (b: Bytes)
    ensures |b| == 4
  {
    [n % 256, (n / 0x100) % 256, (n / 0x1_0000) % 256, (n / 0x100_0000) % 256]
  }

  /** Bitwise or of two naturals, one bit at a time. */
  function BitOr(x: nat, y: nat): nat {
    if x == 0 && y == 0 then 0
    else One(x % 2 == 1 || y % 2 == 1) + 2 * BitOr(x / 2, y / 2)
  }

  /** Bitwise and of two naturals. */
  function BitAnd(x: nat, y: nat): (r: nat)
    ensures r <= y
  {
    if x == 0 || y == 0 then 0
    else One(x % 2 == 1 && y % 2 == 1) + 2 * BitAnd(x / 2, y / 2)
  }

  /** Logical shift: drop `k` bits. */
  function ShiftRight(n: nat, k: nat): nat {
    if k == 0 then n else ShiftRight(n / 2, k - 1)
  }

  /** Node masks the length, shifted by 0, 8, 16 and 24 bits. */
  function WriteU32Bits(n: nat): (b: Bytes)
    ensures |b| == 4
  {
    [BitAnd(n, 0xFF), BitAnd(ShiftRight(n, 8), 0xFF), BitAnd(ShiftRight(n, 16), 0xFF), BitAnd(ShiftRight(n, 24), 0xFF)]
  }

  function Pow2(k: nat): nat {
    if k == 0 then 1 else 2 * Pow2(k - 1)
  }

  /** Python and Go read the field as a weighted sum. */
  function ReadU32Sum(b: Bytes): nat
    requires |b| == 4
  {
    var b0: nat, b1: nat, b2: nat, b3: nat := b[0], b[1], b[2], b[3];
    b0 + 0x100 * b1 + 0x1_0000 * b2 + 0x100_0000 * b3
  }

  /** Node ors the three low bytes and adds the top one, which would be negative under a shift. */
  function ReadU32Bits(b: Bytes): nat
    requires |b| == 4
  {
    var b0: nat, b1: nat, b2: nat, b3: nat := b[0], b[1], b[2], b[3];
    BitOr(BitOr(b0, b1 * 0x100), b2 * 0x1_0000) + b3 * 0x100_0000
  }

  /** Or is addition when the right operand only has bits above the left one's. */
  lemma {:induction false} BitOrDisjoint(x: nat, y: nat, k: nat)
    requires x < Pow2(k)
    ensures BitOr(x, y * Pow2(k)) == x + y * Pow2(k)
  {
    if k == 0 {
      BitOrZero(y);
    } else {
      var z := y * Pow2(k - 1);
      assert y * Pow2(k) == 2 * z;
      BitOrDisjoint(x / 2, y, k - 1);
      assert (2 * z) % 2 == 0 && (2 * z) / 2 == z;
    }
  }

  lemma {:induction false} BitOrZero(y: nat)
    ensures BitOr(0, y) == y
  {
    if y != 0 {
      BitOrZero(y / 2);
    }
  }

  /** The header bytes are the base-256 digits of the length. */
  lemma U32Digits(n: nat)
    requires n < U32_LIMIT
    ensures ReadU32Sum(WriteU32(n)) == n
  {
    var n1, n2, n3 := n / 0x100, n / 0x1_0000, n / 0x100_0000;
    assert n == 0x100 * n1 + n % 256;
    assert n1 == 0x100 * n2 + n1 % 256;
    assert n2 == 0x100 * n3 + n2 % 256;
    assert n3 % 256 == n3;
  }

  lemma ReadersAgree(b: Bytes)
    requires |b| == 4
    ensures ReadU32Bits(b) == ReadU32Sum(b)
  {
    var b0: nat, b1: nat, b2: nat := b[0], b[1], b[2];
    assert Pow2(4) == 16;
    assert Pow2(8) == 0x100;
    assert Pow2(12) == 0x1000;
    assert Pow2(16) == 0x1_0000;
    BitOrDisjoint(b0, b1, 8);
    BitOrDisjoint(b0 + b1 * 0x100, b2, 16);
  }

  /** Masking with a byte of ones is the remainder by 256. */
  lemma MaskIsRemainder(n: nat)
    ensures BitAnd(n, 0xFF) == n % 256
  {
    MaskNibble(n, 0xF);
    MaskNibble(n / 16, 0);
    assert BitAnd(n / 16 / 16, 0) == 0;
  }

  lemma MaskNibble(n: nat, ones: nat)
    ensures BitAnd(n, 16 * ones + 0xF) == n % 16 + 16 * BitAnd(n / 16, ones)
  {
    var n1 := n / 2;
    var n2 := n1 / 2;
    var n3 := n2 / 2;
    var n4 := n3 / 2;
    MaskStep(n3, ones);
    MaskStep(n2, 2 * ones + 1);
    MaskStep(n1, 4 * ones + 3);
    MaskStep(n, 8 * ones + 7);
    assert n4 == n / 16;
  }

  lemma MaskStep(n: nat, ones: nat)
    ensures BitAnd(n, 2 * ones + 1) == n % 2 + 2 * BitAnd(n / 2, ones)
  {
  }

  lemma {:induction false} ShiftTwice(n: nat, j: nat, k: nat)
    ensures ShiftRight(n, j + k) == ShiftRight(ShiftRight(n, j), k)
  {
    if j > 0 {
      ShiftTwice(n / 2, j - 1, k);
    }
  }

  /** Shifting by a byte is division by 256. */
  lemma ShiftIsQuotient(n: nat)
    ensures ShiftRight(n, 8) == n / 0x100
  {
    ShiftNibble(n);
    ShiftNibble(n / 16);
    ShiftTwice(n, 4, 4);
  }

  lemma ShiftNibble(n: nat)
    ensures ShiftRight(n, 4) == n / 16
  {
    var n1 := n / 2;
    var n2 := n1 / 2;
    assert ShiftRight(n2, 2) == ShiftRight(n2 / 2, 1) == n2 / 2 / 2;
    assert ShiftRight(n, 4) == ShiftRight(n1, 3);
  }

  /** Node's writer and Python's write the same four bytes. */
  lemma WritersAgree(n: nat)
    ensures WriteU32Bits(n) == WriteU32(n)
  {
    ShiftBytes(n);
    MaskIsRemainder(n);
    MaskIsRemainder(n / 0x100);
    MaskIsRemainder(n / 0x1_0000);
    MaskIsRemainder(n / 0x100_0000);
  }

  lemma ShiftBytes(n: nat)
    ensures ShiftRight(n, 8) == n / 0x100 && ShiftRight(n, 16) == n / 0x1_0000 && ShiftRight(n, 24) == n / 0x100_0000
  {
    ShiftTwice(n, 8, 8);
    ShiftTwice(n, 16, 8);
    ShiftIsQuotient(n);
    ShiftIsQuotient(n / 0x100);
    ShiftIsQuotient(n / 0x1_0000);
    QuotientsOfQuotients(n);
  }

  lemma QuotientsOfQuotients(n: nat)
    ensures n / 0x100 / 0x100 == n / 0x1_0000 && n / 0x1_0000 / 0x100 == n / 0x100_0000
  {
  }

  /** The length survives every writer and every reader. */
  lemma U32RoundTrip(n: nat)
    requires n < U32_LIMIT
    ensures ReadU32Sum(WriteU32(n)) == n && ReadU32Bits(WriteU32(n)) == n
    ensures ReadU32Sum(WriteU32Bits(n)) == n && ReadU32Bits(WriteU32Bits(n)) == n
  {
    U32Digits(n);
    WritersAgree(n);
    ReadersAgree(WriteU32(n));
  }

  /** The indices below `n`. */
  function IndexSet(n: nat): (s: set<nat>)
    ensures forall i: nat :: i in s <==> i < n
    ensures |s| == n
  {
    if n == 0 then {} else IndexSet(n - 1) + {n - 1}
  }

  function Sum(s: seq<nat>): nat {
    if s == [] then 0 else s[0] + Sum(s[1..])
  }

  lemma {:induction false} SumConcat(a: seq<nat>, b: seq<nat>)
    ensures Sum(a + b) == Sum(a) + Sum(b)
  {
    if a == [] {
      assert a + b == b;
    } else {
      assert (a + b)[1..] == a[1..] + b;
      SumConcat(a[1..], b);
    }
  }

  lemma SumPrefix(s: seq<nat>, i: nat)
    requires i < |s|
    ensures Sum(s[..i + 1]) == Sum(s[..i]) + s[i]
    ensures Sum(s[..i + 1]) <= Sum(s)
  {
    assert s[..i + 1] == s[..i] + [s[i]];
    SumConcat(s[..i], [s[i]]);
    assert s == s[..i + 1] + s[i + 1..];
    SumConcat(s[..i + 1], s[i + 1..]);
  }

  /** Segments laid back to back. */
  function Join(parts: seq<Bytes>): Bytes {
    if parts == [] then [] else parts[0] + Join(parts[1..])
  }

  function Lengths(parts: seq<Bytes>): (r: seq<nat>)
    ensures |r| == |parts|
    ensures forall i :: 0 <= i < |r| ==> r[i] == |parts[i]|
  {
    seq(|parts|, i requires 0 <= i < |parts| => |parts[i]|)
  }

  lemma {:induction false} JoinLength(parts: seq<Bytes>)
    ensures |Join(parts)| == Sum(Lengths(parts))
  {
    if parts != [] {
      JoinLength(parts[1..]);
      assert Lengths(parts)[1..] == Lengths(parts[1..]);
    }
  }

  /** Part i occupies the bytes after the lengths before it. */
  lemma {:induction false} JoinSlice(parts: seq<Bytes>, i: nat)
    requires i < |parts|
    ensures |Join(parts)| == Sum(Lengths(parts))
    ensures var at := Sum(Lengths(parts)[..i]);
            at + |parts[i]| <= |Join(parts)| && Join(parts)[at..at + |parts[i]|] == parts[i]
  {
    JoinLength(parts);
    if i == 0 {
      assert Lengths(parts)[..0] == [];
    } else {
      JoinSlice(parts[1..], i - 1);
      SumShift(parts, i);
      var rest, at := Join(parts[1..]), Sum(Lengths(parts[1..])[..i - 1]);
      assert parts[i] == parts[1..][i - 1] == rest[at..at + |parts[i]|];
      ShiftSlice(parts[0], rest, at, |parts[i]|);
    }
  }

  lemma SumShift(parts: seq<Bytes>, i: nat)
    requires 0 < i < |parts|
    ensures Sum(Lengths(parts)[..i]) == |parts[0]| + Sum(Lengths(parts[1..])[..i - 1])
  {
    assert Lengths(parts)[..i][1..] == Lengths(parts[1..])[..i - 1];
  }

  lemma ShiftSlice(head: Bytes, rest: Bytes, at: nat, len: nat)
    requires at + len <= |rest|
    ensures (head + rest)[|head| + at..|head| + at + len] == rest[at..at + len]
  {
  }
}
