/** Whole numbers as bytes, most or least significant first, as Node's Buffer writes and reads them. */
module Bytes {
  type Byte = b: int | 0 <= b < 256

  const HALF_WORD := 2
  const WORD := 4
  const U16 := 0x1_0000
  const U32 := 0x1_0000_0000

  /** How many numbers fit in `width` bytes. */
  function Range(width: nat): (n: nat)
    ensures n > 0
  {
    if width == 0 then 1 else 256 * Range(width - 1)
  }

  lemma Ranges()
    ensures Range(HALF_WORD) == U16 && Range(WORD) == U32
  {
  }

  /** The least significant byte first. */
  function LittleEndian(n: nat, width: nat): (s: seq<Byte>)
    ensures |s| == width
  {
    if width == 0 then [] else [n % 256] + LittleEndian(n / 256, width - 1)
  }

  /** The most significant byte first. */
  function BigEndian(n: nat, width: nat): (s: seq<Byte>)
    ensures |s| == width
  {
    if width == 0 then [] else BigEndian(n / 256, width - 1) + [n % 256]
  }

  function ReadLittleEndian(s: seq<Byte>, at: nat, width: nat): (n: nat)
    requires at + width <= |s|
    ensures n < Range(width)
    decreases width
  {
    if width == 0 then 0 else s[at] as int + 256 * ReadLittleEndian(s, at + 1, width - 1)
  }

  function ReadBigEndian(s: seq<Byte>, at: nat, width: nat): (n: nat)
    requires at + width <= |s|
    ensures n < Range(width)
  {
    if width == 0 then 0 else 256 * ReadBigEndian(s, at, width - 1) + s[at + width - 1] as int
  }

  /** `part` stands in `s` at position `at`. */
  ghost predicate Holds(s: seq<Byte>, at: nat, part: seq<Byte>) {
    at + |part| <= |s| && s[at..at + |part|] == part
  }

  lemma {:induction false} LittleEndianReadsBack(s: seq<Byte>, at: nat, n: nat, width: nat)
    requires n < Range(width) && Holds(s, at, LittleEndian(n, width))
    ensures ReadLittleEndian(s, at, width) == n
    decreases width
  {
    if width > 0 {
      var low, high: seq<Byte> := [n % 256], LittleEndian(n / 256, width - 1);
      assert low + high == [] + low + high && low + high == low + high + [];
      HoldsWithin(s, at, [], low, high);
      HoldsWithin(s, at, low, high, []);
      assert s[at] == s[at..at + 1][0];
      LittleEndianReadsBack(s, at + 1, n / 256, width - 1);
    }
  }

  lemma {:induction false} BigEndianReadsBack(s: seq<Byte>, at: nat, n: nat, width: nat)
    requires n < Range(width) && Holds(s, at, BigEndian(n, width))
    ensures ReadBigEndian(s, at, width) == n
  {
    if width > 0 {
      var low, high: seq<Byte> := [n % 256], BigEndian(n / 256, width - 1);
      assert high + low == [] + high + low && high + low == high + low + [];
      HoldsWithin(s, at, [], high, low);
      HoldsWithin(s, at, high, low, []);
      assert s[at + width - 1] == s[at + width - 1..at + width][0];
      BigEndianReadsBack(s, at, n / 256, width - 1);
    }
  }

  /** A part of a part stands where it should. */
  lemma HoldsWithin(s: seq<Byte>, at: nat, before: seq<Byte>, part: seq<Byte>, after: seq<Byte>)
    requires Holds(s, at, before + part + after)
    ensures Holds(s, at + |before|, part)
  {
    var whole := before + part + after;
    assert whole[|before|..|before| + |part|] == part;
    forall i | 0 <= i < |part|
      ensures s[at + |before| + i] == part[i]
    {
      assert s[at..at + |whole|][|before| + i] == whole[|before| + i];
    }
  }

  // ---------------------------------------------------------------- parts laid end to end

  /** Where part k starts. */
  function Start(parts: seq<seq<Byte>>, k: nat): nat
    requires k <= |parts|
  {
    if k == 0 then 0 else Start(parts, k - 1) + |parts[k - 1]|
  }

  function Join(parts: seq<seq<Byte>>, k: nat): (s: seq<Byte>)
    requires k <= |parts|
    ensures |s| == Start(parts, k)
  {
    if k == 0 then [] else Join(parts, k - 1) + parts[k - 1]
  }

  lemma StillHolds(s: seq<Byte>, more: seq<Byte>, at: nat, part: seq<Byte>)
    requires Holds(s, at, part)
    ensures Holds(s + more, at, part)
  {
  }

  /** Each part stands whole at its start, and the parts before it do not reach into it. */
  lemma {:induction false} PartStands(parts: seq<seq<Byte>>, i: nat, k: nat)
    requires i < k <= |parts|
    ensures Start(parts, i) + |parts[i]| <= Start(parts, k)
    ensures Holds(Join(parts, k), Start(parts, i), parts[i])
  {
    if i + 1 < k {
      PartStands(parts, i, k - 1);
      StillHolds(Join(parts, k - 1), parts[k - 1], Start(parts, i), parts[i]);
    } else {
      var before := Join(parts, i);
      assert (before + parts[i])[|before|..|before| + |parts[i]|] == parts[i];
    }
  }

  lemma {:induction false} EvenStarts(parts: seq<seq<Byte>>, size: nat, k: nat)
    requires k <= |parts| && forall i :: 0 <= i < |parts| ==> |parts[i]| == size
    ensures Start(parts, k) == k * size
  {
    if k > 0 { EvenStarts(parts, size, k - 1); }
  }
}
