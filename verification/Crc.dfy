/** The CRC-32 of the PNG encoder: a table of 256 words against the definition, one bit at a time.

    The number n of bits in a byte is 8 wherever it matters. The lemmas take it as a parameter with `requires n == 8`
    because the functions that count bits recurse on it: with the constant in its place the solver would unfold them
    eight deep in every term. */
module Crc {
  /** A byte, as the 32-bit number it is in the source. */
  type Octet = w: bv32 | w <= 0xff

  const POLYNOMIAL: bv32 := 0xedb88320
  const ALL_ONES: bv32 := 0xffffffff

  // ---------------------------------------------------------------- the definition

  /** The register takes in one message bit: it shifts, and the polynomial is subtracted when a one falls out. */
  function TakeBit(c: bv32, bit: bool): bv32 {
    if (c & 1 == 1) != bit then POLYNOMIAL ^ (c >> 1) else c >> 1
  }

  function TakeBits(c: bv32, bits: seq<bool>): bv32
    decreases |bits|
  {
    if bits == [] then c else TakeBits(TakeBit(c, bits[0]), bits[1..])
  }

  /** The n low bits of a word, the least significant first. */
  function LowBits(n: nat, w: bv32): seq<bool> {
    if n == 0 then [] else [w & 1 == 1] + LowBits(n - 1, w >> 1)
  }

  /** The bits of a message of n-bit bytes, in the order section 3.4 of RFC 2083 gives them. */
  function MessageBits(n: nat, data: seq<Octet>): seq<bool> {
    if data == [] then [] else MessageBits(n, data[..|data| - 1]) + LowBits(n, data[|data| - 1])
  }

  /** The register starts at all ones, and its complement is the checksum. */
  function Checksum(data: seq<Octet>): bv32 {
    TakeBits(ALL_ONES, MessageBits(8, data)) ^ ALL_ONES
  }

  // ---------------------------------------------------------------- eight steps at once

  /** The inner loop's step: the register moves on without taking anything in. */
  function Step(c: bv32): bv32 {
    if c & 1 == 1 then POLYNOMIAL ^ (c >> 1) else c >> 1
  }

  function Steps(n: nat, c: bv32): bv32 {
    if n == 0 then c else Steps(n - 1, Step(c))
  }

  function Shift(n: nat, w: bv32): bv32 {
    if n == 0 then w else Shift(n - 1, w >> 1)
  }

  lemma LowBitOfSum(c: bv32, w: bv32)
    ensures (c ^ w) & 1 == (c & 1) ^ (w & 1)
  {
  }

  lemma LowBit(c: bv32)
    ensures c & 1 == 0 || c & 1 == 1
  {
  }

  lemma ShiftOfSum(c: bv32, w: bv32)
    ensures (c ^ w) >> 1 == (c >> 1) ^ (w >> 1)
  {
  }

  lemma SumOfThree(a: bv32, b: bv32, c: bv32)
    ensures (a ^ b) ^ c == a ^ (b ^ c)
  {
  }

  /** A step on a register with w added to it takes in the lowest bit of w and leaves the rest of w added. */
  lemma StepTakesBit(c: bv32, w: bv32)
    ensures TakeBit(c, w & 1 == 1) ^ (w >> 1) == Step(c ^ w)
  {
    LowBitOfSum(c, w);
    LowBit(c);
    LowBit(w);
    ShiftOfSum(c, w);
    SumOfThree(POLYNOMIAL, c >> 1, w >> 1);
  }

  /** The register after it has taken in the n low bits of w, with the rest of w added. */
  function Taken(n: nat, c: bv32, w: bv32): bv32
    decreases n
  {
    if n == 0 then c ^ w else Taken(n - 1, TakeBit(c, w & 1 == 1), w >> 1)
  }

  lemma {:induction false} TakenIsSteps(n: nat, c: bv32, w: bv32)
    ensures Taken(n, c, w) == Steps(n, c ^ w)
  {
    if n > 0 {
      StepTakesBit(c, w);
      TakenIsSteps(n - 1, TakeBit(c, w & 1 == 1), w >> 1);
    }
  }

  lemma LowBitsUnfold(n: nat, w: bv32)
    requires n > 0
    ensures LowBits(n, w) != [] && LowBits(n, w)[0] == (w & 1 == 1) && LowBits(n, w)[1..] == LowBits(n - 1, w >> 1)
  {
  }

  lemma {:induction false} TakenIsTakeBits(n: nat, c: bv32, w: bv32)
    ensures Taken(n, c, w) == TakeBits(c, LowBits(n, w)) ^ Shift(n, w)
    decreases n
  {
    if n > 0 {
      LowBitsUnfold(n, w);
      TakenIsTakeBits(n - 1, TakeBit(c, w & 1 == 1), w >> 1);
    }
  }

  /** x and y have the same n low bits. */
  predicate Agree(n: nat, x: bv32, y: bv32)
    decreases n
  {
    n == 0 || (x & 1 == y & 1 && Agree(n - 1, x >> 1, y >> 1))
  }

  predicate IsMask(n: nat, mask: bv32)
    decreases n
  {
    n == 0 || (mask & 1 == 1 && IsMask(n - 1, mask >> 1))
  }

  lemma MaskedAgreeOneBit(x: bv32, y: bv32, mask: bv32)
    requires x & mask == y & mask && mask & 1 == 1
    ensures x & 1 == y & 1 && (x >> 1) & (mask >> 1) == (y >> 1) & (mask >> 1)
  {
  }

  lemma {:induction false} MaskedAgree(n: nat, x: bv32, y: bv32, mask: bv32)
    requires x & mask == y & mask && IsMask(n, mask)
    ensures Agree(n, x, y)
    decreases n
  {
    if n > 0 {
      MaskedAgreeOneBit(x, y, mask);
      MaskedAgree(n - 1, x >> 1, y >> 1, mask >> 1);
    }
  }

  lemma {:induction false} AgreeingLowBits(n: nat, x: bv32, y: bv32)
    requires Agree(n, x, y)
    ensures LowBits(n, x) == LowBits(n, y)
    decreases n
  {
    if n > 0 { AgreeingLowBits(n - 1, x >> 1, y >> 1); }
  }

  lemma LowByteAgrees(n: nat, x: bv32)
    requires n == 8
    ensures Agree(n, x, x & 0xff)
  {
    assert x & 0xff == (x & 0xff) & 0xff;
    assert IsMask(8, 0xff);
    MaskedAgree(n, x, x & 0xff, 0xff);
  }

  lemma ShiftByTwo(n: nat, w: bv32)
    requires n >= 2
    ensures Shift(n, w) == Shift(n - 2, w >> 2)
  {
  }

  lemma ShiftByEight(n: nat, w: bv32)
    requires n == 8
    ensures Shift(n, w) == w >> 8
  {
    ShiftByTwo(n, w);
    ShiftByTwo(n - 2, w >> 2);
    ShiftByTwo(n - 4, w >> 2 >> 2);
    ShiftByTwo(n - 6, w >> 2 >> 2 >> 2);
    assert w >> 2 >> 2 >> 2 >> 2 == w >> 8;
  }

  /** A word of at most n bits is taken in by n steps on its sum with the register. */
  lemma WordIsSteps(n: nat, c: bv32, w: bv32)
    requires Shift(n, w) == 0
    ensures TakeBits(c, LowBits(n, w)) == Steps(n, c ^ w)
  {
    TakenIsSteps(n, c, w);
    TakenIsTakeBits(n, c, w);
    XorZero(TakeBits(c, LowBits(n, w)));
  }

  lemma XorZero(c: bv32)
    ensures c ^ 0 == c && 0 ^ c == c
  {
  }

  lemma StepsOnAnyWord(n: nat, x: bv32)
    ensures Steps(n, x) == TakeBits(0, LowBits(n, x)) ^ Shift(n, x)
  {
    TakenIsSteps(n, 0, x);
    TakenIsTakeBits(n, 0, x);
    XorZero(x);
  }

  /** n steps on any word: those on a word of n bits that agrees with it, and its rest shifted down. */
  lemma StepsSplit(n: nat, x: bv32, low: bv32)
    requires LowBits(n, x) == LowBits(n, low) && Shift(n, low) == 0
    ensures Steps(n, x) == Steps(n, low) ^ Shift(n, x)
  {
    StepsOnAnyWord(n, x);
    StepsOnAnyWord(n, low);
    XorZero(TakeBits(0, LowBits(n, low)));
  }

  lemma SameLowBits(n: nat, x: bv32, low: bv32)
    requires n == 8 && low == x & 0xff
    ensures LowBits(n, x) == LowBits(n, low)
  {
    LowByteAgrees(n, x);
    AgreeingLowBits(n, x, low);
  }

  lemma LowByteShiftsOut(n: nat, low: bv32)
    requires n == 8 && low <= 0xff
    ensures Shift(n, low) == 0
  {
    ShiftByEight(n, low);
    assert low >> 8 == 0;
  }

  lemma MaskedIsAByte(x: bv32)
    ensures x & 0xff <= 0xff
  {
  }

  lemma StepsOnTheLowByte(n: nat, x: bv32, low: bv32)
    requires n == 8 && low == x & 0xff && low <= 0xff
    ensures Steps(n, x) == Steps(n, low) ^ (x >> 8)
  {
    SameLowBits(n, x, low);
    LowByteShiftsOut(n, low);
    ShiftByEight(n, x);
    StepsSplit(n, x, low);
  }

  lemma LowByteSteps(n: nat, x: bv32)
    requires n == 8
    ensures Steps(n, x) == Steps(n, x & 0xff) ^ (x >> 8)
  {
    MaskedIsAByte(x);
    StepsOnTheLowByte(n, x, x & 0xff);
  }

  lemma ByteIsSteps(n: nat, c: bv32, w: bv32)
    requires n == 8 && w <= 0xff
    ensures TakeBits(c, LowBits(n, w)) == Steps(n, c ^ w)
  {
    ShiftByEight(n, w);
    assert w >> 8 == 0;
    WordIsSteps(n, c, w);
  }

  lemma HighBytes(c: bv32, w: bv32)
    requires w <= 0xff
    ensures (c ^ w) >> 8 == c >> 8
  {
  }

  lemma Look(n: nat, taken: bv32, x: bv32, high: bv32)
    requires taken == Steps(n, x) && Steps(n, x) == Steps(n, x & 0xff) ^ (x >> 8) && x >> 8 == high
    ensures taken == Steps(n, x & 0xff) ^ high
  {
  }

  /** Taking in a byte is one look at the table, which holds eight steps on each low byte. */
  lemma ByteFromTable(n: nat, c: bv32, w: bv32, sum: bv32, high: bv32)
    requires n == 8 && w <= 0xff && sum == c ^ w && high == c >> 8
    ensures TakeBits(c, LowBits(n, w)) == Steps(n, sum & 0xff) ^ high
  {
    ByteIsSteps(n, c, w);
    LowByteSteps(n, sum);
    HighBytes(c, w);
    Look(n, TakeBits(c, LowBits(n, w)), sum, high);
  }

  lemma {:induction false} TakeBitsInTwo(c: bv32, s: seq<bool>, t: seq<bool>)
    ensures TakeBits(c, s + t) == TakeBits(TakeBits(c, s), t)
    decreases |s|
  {
    if s == [] {
      assert s + t == t;
    } else {
      TakeBitsInTwo(TakeBit(c, s[0]), s[1..], t);
      assert (s + t)[0] == s[0] && (s + t)[1..] == s[1..] + t;
    }
  }

  lemma {:induction false} MessageBitsGrow(n: nat, data: seq<Octet>, b: Octet)
    ensures MessageBits(n, data + [b]) == MessageBits(n, data) + LowBits(n, b)
  {
    assert (data + [b])[..|data|] == data;
  }

  lemma TakesOneMore(n: nat, buf: seq<Octet>, i: nat)
    requires i < |buf|
    ensures TakeBits(ALL_ONES, MessageBits(n, buf[..i + 1]))
         == TakeBits(TakeBits(ALL_ONES, MessageBits(n, buf[..i])), LowBits(n, buf[i]))
  {
    MessageBitsGrow(n, buf[..i], buf[i]);
    assert buf[..i + 1] == buf[..i] + [buf[i]];
    TakeBitsInTwo(ALL_ONES, MessageBits(n, buf[..i]), LowBits(n, buf[i]));
  }

  // ---------------------------------------------------------------- a checksum everybody knows

  /** What the register holds after one more byte. */
  lemma OneByte(n: nat, data: seq<Octet>, i: nat, c: bv32, w: bv32, sum: bv32, next: bv32)
    requires n == 8 && i < |data| && data[i] == w && w <= 0xff
    requires TakeBits(ALL_ONES, MessageBits(n, data[..i])) == c && sum == c ^ w && Steps(n, sum) == next
    ensures TakeBits(ALL_ONES, MessageBits(n, data[..i + 1])) == next
  {
    TakesOneMore(n, data, i);
    ByteIsSteps(n, c, w);
  }

  lemma StepsOfIend()
    ensures Steps(8, 0xffff_ffb6) == 0x22fd_e946 && Steps(8, 0x22fd_e903) == 0x992b_ac53
    ensures Steps(8, 0x992b_ac1d) == 0x639f_4775 && Steps(8, 0x639f_4731) == 0x51bd_9f7d
  {
  }

  lemma HalfOfIend(n: nat, iend: seq<Octet>)
    requires n == 8 && iend == [73, 69, 78, 68]
    ensures TakeBits(ALL_ONES, MessageBits(n, iend[..2])) == 0x992b_ac53
  {
    assert iend[..0] == [];
    StepsOfIend();
    OneByte(n, iend, 0, 0xffff_ffff, 73, 0xffff_ffb6, 0x22fd_e946);
    OneByte(n, iend, 1, 0x22fd_e946, 69, 0x22fd_e903, 0x992b_ac53);
  }

  lemma AllOfIend(n: nat, iend: seq<Octet>)
    requires n == 8 && iend == [73, 69, 78, 68]
    ensures TakeBits(ALL_ONES, MessageBits(n, iend)) == 0x51bd_9f7d
  {
    assert iend[..4] == iend;
    HalfOfIend(n, iend);
    StepsOfIend();
    OneByte(n, iend, 2, 0x992b_ac53, 78, 0x992b_ac1d, 0x639f_4775);
    OneByte(n, iend, 3, 0x639f_4775, 68, 0x639f_4731, 0x51bd_9f7d);
  }

  /** The four letters of IEND, which end every PNG file, have the checksum AE 42 60 82. */
  lemma ChecksumOfIend(n: nat, iend: seq<Octet>)
    requires n == 8 && iend == [73, 69, 78, 68]
    ensures Checksum(iend) == 0xae42_6082
  {
    AllOfIend(n, iend);
  }

  // ---------------------------------------------------------------- the code

  /** The first entries of the table, up to entry i. */
  ghost predicate FilledTo(n: nat, t: seq<bv32>, i: bv32) {
    |t| == 256 && forall w: bv32 {:trigger Steps(n, w)} :: w < i && w <= 0xff ==> t[w as int] == Steps(n, w)
  }

  lemma OtherIndex(w: bv32, i: bv32)
    requires w < i <= 0xff
    ensures w as int != i as int
  {
  }

  lemma Below(w: bv32, i: bv32, next: bv32)
    requires i <= 0xff && next == i + 1 && w < next
    ensures w < i || w == i
  {
  }

  lemma FillOne(n: nat, t: seq<bv32>, i: bv32, next: bv32, c: bv32)
    requires FilledTo(n, t, i) && i <= 0xff && next == i + 1 && c == Steps(n, i)
    ensures FilledTo(n, t[i as int := c], next)
  {
    forall w: bv32 {:trigger Steps(n, w)} | w < next && w <= 0xff
      ensures t[i as int := c][w as int] == Steps(n, w)
    {
      Below(w, i, next);
      if w != i { FillOther(n, t, i, c, w); }
    }
  }

  lemma FillOther(n: nat, t: seq<bv32>, i: bv32, c: bv32, w: bv32)
    requires FilledTo(n, t, i) && w < i <= 0xff
    ensures t[i as int := c][w as int] == Steps(n, w)
  {
    OtherIndex(w, i);
  }

  /** crc32, which makes its table the first time it is called and keeps it. */
  class Crc32 {
    var table: array?<bv32>

    ghost predicate Valid()
      reads this, table
    {
      table != null ==> IsTable(8, table)
    }

    constructor ()
      ensures Valid() && table == null
    {
      table := null;
    }

    /** Entry i of the table: eight steps on i. */
    static ghost predicate IsTable(n: nat, t: array<bv32>)
      reads t
    {
      t.Length == 256 && forall w: bv32 {:trigger Steps(n, w)} :: w <= 0xff ==> t[w as int] == Steps(n, w)
    }

    static method EightSteps(ghost n: nat, i: bv32) returns (c: bv32)
      requires n == 8
      ensures c == Steps(n, i)
    {
      c := i;
      for j := 0 to 8
        invariant Steps(n - j, c) == Steps(n, i)
      {
        c := if c & 1 == 1 then POLYNOMIAL ^ (c >> 1) else c >> 1;
      }
    }

    method MakeTable()
      modifies this
      ensures Valid() && table != null && fresh(table)
    {
      var t := new bv32[256];
      FillTable(8, t);
      table := t;
    }

    static method FillTable(ghost n: nat, t: array<bv32>)
      requires n == 8 && t.Length == 256
      modifies t
      ensures IsTable(n, t)
    {
      var i: bv32 := 0;
      while i < 256
        invariant i <= 256 && FilledTo(n, t[..], i)
        decreases 256 - i
      {
        var c := EightSteps(n, i);
        ghost var before := t[..];
        t[i as int] := c;
        FillOne(n, before, i, i + 1, c);
        assert t[..] == before[i as int := c];
        i := i + 1;
      }
    }

    /** One turn of the loop over the bytes. */
    static method Update(ghost n: nat, t: array<bv32>, c: bv32, b: Octet) returns (c': bv32)
      requires n == 8 && IsTable(n, t)
      ensures c' == TakeBits(c, LowBits(n, b))
    {
      var sum, high := c ^ b, c >> 8;
      ByteFromTable(n, c, b, sum, high);
      c' := t[(sum & 0xff) as int] ^ high;
    }

    /** The loop over the bytes. */
    static method Run(ghost n: nat, t: array<bv32>, buf: seq<Octet>) returns (c: bv32)
      requires n == 8 && IsTable(n, t)
      ensures c == TakeBits(ALL_ONES, MessageBits(n, buf))
    {
      c := ALL_ONES;
      for i := 0 to |buf|
        invariant c == TakeBits(ALL_ONES, MessageBits(n, buf[..i]))
      {
        TakesOneMore(n, buf, i);
        c := Update(n, t, c, buf[i]);
      }
      assert buf[..|buf|] == buf;
    }

    method Compute(buf: seq<Octet>) returns (r: bv32)
      requires Valid()
      modifies this
      ensures Valid() && r == Checksum(buf)
      ensures table != null && (old(table) == null ==> fresh(table)) && (old(table) != null ==> table == old(table))
    {
      if table == null {
        MakeTable();
      }
      var c := Run(8, table, buf);
      r := c ^ ALL_ONES;
    }
  }
}
