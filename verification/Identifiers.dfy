/** Call ids and reply prefixes: padded base-36 numbers (node/src/utils.ts, python/camera_ui_rpc/utils.py). */
module Identifiers {
  function DigitChar(d: nat): char
    requires d < 36
  {
    if d < 10 then '0' + d as char else 'a' + (d - 10) as char
  }

  function DigitValue(c: char): nat {
    if '0' <= c <= '9' then (c - '0') as nat else if 'a' <= c <= 'z' then (c - 'a') as nat + 10 else 0
  }

  /** A number in base 36, without leading zeros. */
  function Base36(n: nat): string {
    if n < 36 then [DigitChar(n)] else Base36(n / 36) + [DigitChar(n % 36)]
  }

  function PadStart(s: string, width: nat): string
    decreases width - |s|
  {
    if |s| >= width then s else PadStart(['0'] + s, width)
  }

  /** The number a string of base-36 digits stands for. */
  function ValueOf(s: string): nat {
    if s == [] then 0 else ValueOf(s[..|s| - 1]) * 36 + DigitValue(s[|s| - 1])
  }

  function Pow36(k: nat): nat {
    if k == 0 then 1 else 36 * Pow36(k - 1)
  }

  lemma {:induction false} ValueOfBase36(n: nat)
    ensures ValueOf(Base36(n)) == n
  {
    if n < 36 {
      assert ValueOf([]) == 0;
    } else {
      ValueOfBase36(n / 36);
      var s := Base36(n);
      assert s[..|s| - 1] == Base36(n / 36);
    }
  }

  lemma {:induction false} LeadingZero(s: string)
    ensures ValueOf(['0'] + s) == ValueOf(s)
  {
    var t := ['0'] + s;
    if s == [] {
      assert t[..0] == [];
    } else {
      LeadingZero(s[..|s| - 1]);
      assert t[..|t| - 1] == ['0'] + s[..|s| - 1];
    }
  }

  lemma {:induction false} PaddingKeepsValue(s: string, width: nat)
    ensures ValueOf(PadStart(s, width)) == ValueOf(s)
    ensures |PadStart(s, width)| == if |s| >= width then |s| else width
    decreases width - |s|
  {
    if |s| < width {
      LeadingZero(s);
      PaddingKeepsValue(['0'] + s, width);
    }
  }

  lemma {:induction false} Base36Fits(n: nat, k: nat)
    requires n < Pow36(k) && k > 0
    ensures |Base36(n)| <= k
  {
    if n >= 36 {
      Base36Fits(n / 36, k - 1);
    }
  }

  /** A number below 36^k, padded to k digits, takes exactly k and can be read back. */
  lemma PaddedIsExact(n: nat, k: nat)
    requires n < Pow36(k) && k > 0
    ensures |PadStart(Base36(n), k)| == k && ValueOf(PadStart(Base36(n), k)) == n
  {
    Base36Fits(n, k);
    PaddingKeepsValue(Base36(n), k);
    ValueOfBase36(n);
  }

  // ---------------------------------------------------------------- reply prefixes

  const PREFIX_LENGTH := 10
  const PREFIX_SPACE := 0x1_0000_0000_0000

  function ReplyPrefix(value: nat): string {
    PadStart(Base36(value), PREFIX_LENGTH)
  }

  lemma PrefixSpaceFits()
    ensures PREFIX_SPACE < Pow36(PREFIX_LENGTH)
  {
    assert Pow36(5) == 60466176;
    assert Pow36(10) == 60466176 * Pow36(5);
  }

  /** Every 48-bit value gives ten characters, and they determine it. */
  lemma ReplyPrefixDetermines(v: nat, w: nat)
    requires v < PREFIX_SPACE && w < PREFIX_SPACE
    ensures |ReplyPrefix(v)| == PREFIX_LENGTH
    ensures ReplyPrefix(v) == ReplyPrefix(w) <==> v == w
  {
    PrefixSpaceFits();
    PaddedIsExact(v, PREFIX_LENGTH);
    PaddedIsExact(w, PREFIX_LENGTH);
  }

  /** The digit loop: remainders collected, reversed and padded. */
  method GenerateReplyPrefix(bits: nat) returns (prefix: string)
    requires bits < PREFIX_SPACE
    ensures prefix == ReplyPrefix(bits) && |prefix| == PREFIX_LENGTH
  {
    var value, chars := bits, "";
    while value != 0
      invariant value == 0 ==> PadStart(chars, PREFIX_LENGTH) == ReplyPrefix(bits)
      invariant value != 0 ==> Base36(value) + chars == Base36(bits)
      decreases value
    {
      chars := [DigitChar(value % 36)] + chars;
      assert value >= 36 ==> Base36(value / 36) + chars == Base36(value) + chars[1..];
      value := value / 36;
    }
    prefix := PadStart(chars, PREFIX_LENGTH);
    ReplyPrefixDetermines(bits, bits);
  }

  // ---------------------------------------------------------------- call ids

  const ID_COUNTER_SPACE := 36 * 36 * 36 * 36

  /** An id: an optional reply prefix, a time stamp, the process prefix and the counter. */
  function IdText(replyPrefix: string, stamp: string, idPrefix: string, counter: nat): string {
    (if replyPrefix == "" then "" else replyPrefix + ".") + stamp + "-" + idPrefix + PadStart(Base36(counter), 4)
  }

  class IdGenerator {
    const idPrefix: string
    var idCounter: nat

    constructor (idPrefix: string, start: nat)
      requires start < ID_COUNTER_SPACE
      ensures this.idPrefix == idPrefix && idCounter == start
    {
      this.idPrefix, idCounter := idPrefix, start;
    }

    method GenerateId(replyPrefix: string, stamp: string) returns (id: string)
      requires idCounter < ID_COUNTER_SPACE
      modifies this
      ensures idCounter == CounterAfter(old(idCounter), 1)
      ensures id == IdText(replyPrefix, stamp, idPrefix, idCounter)
      ensures replyPrefix != "" ==> Under(id, replyPrefix)
    {
      idCounter := (idCounter + 1) % ID_COUNTER_SPACE;
      id := if replyPrefix == "" then "" else replyPrefix + ".";
      id := id + stamp + "-" + idPrefix + PadStart(Base36(idCounter), 4);
      IdUnderPrefix(replyPrefix, stamp, idPrefix, idCounter);
    }
  }

  /** The counter after some calls. */
  function CounterAfter(start: nat, calls: nat): (r: nat)
    requires start < ID_COUNTER_SPACE
    ensures r < ID_COUNTER_SPACE
  {
    if calls == 0 then start else (CounterAfter(start, calls - 1) + 1) % ID_COUNTER_SPACE
  }

  /** Up to a whole cycle later the counter has wrapped at most once. */
  lemma {:induction false} CounterAdvances(start: nat, calls: nat, more: nat)
    requires start < ID_COUNTER_SPACE && more <= ID_COUNTER_SPACE
    ensures var c := CounterAfter(start, calls);
            CounterAfter(start, calls + more)
              == if c + more < ID_COUNTER_SPACE then c + more else c + more - ID_COUNTER_SPACE
  {
    if more > 0 {
      CounterAdvances(start, calls, more - 1);
      CounterStep(CounterAfter(start, calls + more - 1));
    }
  }

  lemma CounterStep(c: nat)
    requires c < ID_COUNTER_SPACE
    ensures (c + 1) % ID_COUNTER_SPACE == if c + 1 == ID_COUNTER_SPACE then 0 else c + 1
  {
  }

  /**
   * Any 36^4 consecutive ids of a process are pairwise distinct, whatever the
   * clock shows and whatever prefixes are asked for; the next one may repeat.
   */
  lemma ConsecutiveIdsDiffer(
      start: nat, idPrefix: string, i: nat, j: nat, prefix1: string, stamp1: string, prefix2: string, stamp2: string)
    requires start < ID_COUNTER_SPACE && i < j < i + ID_COUNTER_SPACE
    ensures IdText(prefix1, stamp1, idPrefix, CounterAfter(start, i))
            != IdText(prefix2, stamp2, idPrefix, CounterAfter(start, j))
    ensures CounterAfter(start, i + ID_COUNTER_SPACE) == CounterAfter(start, i)
  {
    CounterAdvances(start, i, j - i);
    CounterAdvances(start, i, ID_COUNTER_SPACE);
    var m, n := CounterAfter(start, i), CounterAfter(start, j);
    assert Pow36(4) == ID_COUNTER_SPACE;
    PaddedIsExact(m, 4);
    PaddedIsExact(n, 4);
    LastFour(prefix1, stamp1, idPrefix, m);
    LastFour(prefix2, stamp2, idPrefix, n);
  }

  lemma LastFour(replyPrefix: string, stamp: string, idPrefix: string, counter: nat)
    requires counter < ID_COUNTER_SPACE
    ensures var id := IdText(replyPrefix, stamp, idPrefix, counter);
            |id| >= 4 && id[|id| - 4..] == PadStart(Base36(counter), 4)
  {
    assert Pow36(4) == ID_COUNTER_SPACE;
    PaddedIsExact(counter, 4);
    var head := (if replyPrefix == "" then "" else replyPrefix + ".") + stamp + "-" + idPrefix;
    assert IdText(replyPrefix, stamp, idPrefix, counter) == head + PadStart(Base36(counter), 4);
  }

  /** The prefix is the id's first dot-separated segment. */
  predicate Under(id: string, prefix: string) {
    |id| > |prefix| && id[..|prefix|] == prefix && id[|prefix|] == '.'
  }

  /** An id for a reply prefix lies under it, where the mux subscription finds its reply; the rest is a plain id. */
  lemma IdUnderPrefix(replyPrefix: string, stamp: string, idPrefix: string, counter: nat)
    ensures var id, plain := IdText(replyPrefix, stamp, idPrefix, counter), IdText("", stamp, idPrefix, counter);
            if replyPrefix == "" then id == plain
            else Under(id, replyPrefix) && id[|replyPrefix| + 1..] == plain
  {
    var plain := IdText("", stamp, idPrefix, counter);
    assert plain == stamp + "-" + idPrefix + PadStart(Base36(counter), 4);
    if replyPrefix != "" {
      var id := IdText(replyPrefix, stamp, idPrefix, counter);
      assert id == replyPrefix + "." + plain;
      assert (replyPrefix + ".")[|replyPrefix|] == '.';
    }
  }

  /**
   * What an id determines: of two ids for one reply prefix, from process prefixes
   * of one length, the stamp, the process prefix and the counter.
   */
  lemma IdDetermines(
      replyPrefix: string, stamp1: string, stamp2: string, process1: string, process2: string, m: nat, n: nat)
    requires m < ID_COUNTER_SPACE && n < ID_COUNTER_SPACE && |process1| == |process2|
    ensures IdText(replyPrefix, stamp1, process1, m) == IdText(replyPrefix, stamp2, process2, n)
            <==> stamp1 == stamp2 && process1 == process2 && m == n
  {
    if IdText(replyPrefix, stamp1, process1, m) == IdText(replyPrefix, stamp2, process2, n) {
      IdUnderPrefix(replyPrefix, stamp1, process1, m);
      IdUnderPrefix(replyPrefix, stamp2, process2, n);
      PlainParts(stamp1, process1, m);
      PlainParts(stamp2, process2, n);
      assert Pow36(4) == ID_COUNTER_SPACE;
      PaddedIsExact(m, 4);
      PaddedIsExact(n, 4);
    }
  }

  lemma PlainParts(stamp: string, process: string, counter: nat)
    requires counter < ID_COUNTER_SPACE
    ensures var id := IdText("", stamp, process, counter); var at := |stamp| + 1 + |process|;
            && |id| == at + 4 && id[..|stamp|] == stamp && id[|stamp| + 1..at] == process
            && id[at..] == PadStart(Base36(counter), 4)
  {
    assert Pow36(4) == ID_COUNTER_SPACE;
    PaddedIsExact(counter, 4);
    assert IdText("", stamp, process, counter) == stamp + "-" + process + PadStart(Base36(counter), 4);
  }
}
