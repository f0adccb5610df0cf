/**
  The CRC-32 of xrtc_server/thirdlib/rtcbase_v1/src/rtc_base/crc32.cc: the table-driven
  code against the bit-serial shift register of section 8 of RFC 1952.
 */
module Crc32 {

  const POLYNOMIAL: bv32 := 0xEDB8_8320

  const ALL_ONES: bv32 := 0xFFFF_FFFF

  // Word operations, named so that a proof can reason about them without their bits.

  function Xor(x: bv32, y: bv32): bv32 { x ^ y }

  function Half(x: bv32): bv32 { x >> 1 }

  function Odd(x: bv32): bool { x & 1 == 1 }

  function LowByte(x: bv32): bv32 { x & 0xFF }

  function HighBytes(x: bv32): bv32 { x >> 8 }

  function Wide(b: bv8): bv32 { b as bv32 }

  // ---------------------------------------------------------------------------------
  // Reference: a 32-bit register fed one message bit at a time, lowest bit first

  /** One clock: shift a bit out and feed back the polynomial if it differs from the message bit. */
  function Clock(register: bv32, bit: bool): bv32 {
    if Odd(register) != bit then Xor(POLYNOMIAL, Half(register)) else Half(register)
  }

  /** Feeds the n lowest bits of `bits`. */
  function Clocks(register: bv32, bits: bv32, n: nat): bv32
    decreases n
  {
    if n == 0 then register else Clocks(Clock(register, Odd(bits)), Half(bits), n - 1)
  }

  function Shift(register: bv32, bytes: seq<bv8>): bv32
    decreases |bytes|
  {
    if bytes == [] then register else Shift(Clocks(register, Wide(bytes[0]), 8), bytes[1..])
  }

  /** The checksum of a message continued from an earlier checksum. */
  function Update(start: bv32, bytes: seq<bv8>): bv32 {
    Xor(Shift(Xor(start, ALL_ONES), bytes), ALL_ONES)
  }

  /** The checksum of a whole message, as `ComputeCrc32` starts it. */
  function Compute(bytes: seq<bv8>): bv32 {
    Update(0, bytes)
  }

  // ---------------------------------------------------------------------------------
  // The code

  /** One turn of the loop that builds a table entry. */
  function FoldOnce(c: bv32): bv32 {
    if Odd(c) then Xor(POLYNOMIAL, Half(c)) else Half(c)
  }

  function Fold(c: bv32, n: nat): bv32
    decreases n
  {
    if n == 0 then c else Fold(FoldOnce(c), n - 1)
  }

  function Entry(i: nat): bv32
    requires i < 256
  {
    Fold(Wide(i as bv8), 8)
  }

  ghost predicate IsTable(table: seq<bv32>) {
    |table| == 256 && forall i :: 0 <= i < 256 ==> table[i] == Entry(i)
  }

  method LoadCrc32Table() returns (table: array<bv32>)
    ensures fresh(table) && IsTable(table[..])
  {
    hide Xor, Half, Odd, Wide;
    table := new bv32[256];
    for i := 0 to 256
      invariant forall k :: 0 <= k < i ==> table[k] == Entry(k)
    {
      var c := Wide(i as bv8);
      for j := 0 to 8
        invariant Fold(c, 8 - j) == Entry(i)
      {
        if Odd(c) {
          c := Xor(POLYNOMIAL, Half(c));
        } else {
          c := Half(c);
        }
      }
      table[i] := c;
    }
  }

  /** The low byte of the register, with the message byte mixed in, picks the entry. */
  function Index(c: bv32, u: bv8): (i: nat)
    ensures i < 256
  {
    (LowByte(Xor(c, Wide(u))) as bv8) as int
  }

  /** `UpdateCrc32`: the table-driven loop computes the bit-serial checksum. */
  method UpdateCrc32(start: bv32, bytes: seq<bv8>) returns (crc: bv32)
    ensures crc == Update(start, bytes)
  {
    hide Xor, Index, Wide, HighBytes, Entry, Clocks;
    var table := LoadCrc32Table();
    var c := Xor(start, ALL_ONES);
    for i := 0 to |bytes|
      invariant IsTable(table[..])
      invariant Shift(c, bytes[i..]) == Shift(Xor(start, ALL_ONES), bytes)
    {
      TableStep(c, bytes[i]);
      var k := Index(c, bytes[i]);
      assert table[..][k] == Entry(k);
      assert bytes[i..][1..] == bytes[i + 1..];
      c := Xor(table[k], HighBytes(c));
    }
    crc := Xor(c, ALL_ONES);
  }

  // ---------------------------------------------------------------------------------
  // Why one table lookup is eight clocks

  lemma XorHalf(x: bv32, y: bv32)
    ensures Half(Xor(x, y)) == Xor(Half(x), Half(y))
    ensures Odd(Xor(x, y)) == (Odd(x) != Odd(y))
  {
  }

  lemma XorAssociates(x: bv32, y: bv32, z: bv32)
    ensures Xor(Xor(x, y), z) == Xor(x, Xor(y, z))
  {
  }

  lemma XorCommutes(x: bv32, y: bv32)
    ensures Xor(x, y) == Xor(y, x)
  {
  }

  lemma XorCancels(p: bv32, y: bv32)
    ensures Xor(p, Xor(p, y)) == y
  {
  }

  lemma XorMoves(p: bv32, x: bv32, y: bv32)
    ensures Xor(Xor(p, x), Xor(p, y)) == Xor(x, y)
    ensures Xor(Xor(p, x), y) == Xor(p, Xor(x, y))
    ensures Xor(x, Xor(p, y)) == Xor(p, Xor(x, y))
  {
    hide Xor;
    XorAssociates(p, x, y);
    XorCommutes(p, x);
    XorAssociates(x, p, y);
    XorAssociates(x, p, Xor(p, y));
    XorCancels(p, y);
  }

  lemma XorZero(x: bv32)
    ensures Xor(x, 0) == x
  {
  }

  /** Folding is linear over exclusive or. */
  lemma FoldOnceXor(x: bv32, y: bv32)
    ensures FoldOnce(Xor(x, y)) == Xor(FoldOnce(x), FoldOnce(y))
  {
    hide Xor, Half, Odd;
    XorHalf(x, y);
    XorMoves(POLYNOMIAL, Half(x), Half(y));
  }

  lemma {:induction false} FoldXor(x: bv32, y: bv32, n: nat)
    ensures Fold(Xor(x, y), n) == Xor(Fold(x, n), Fold(y, n))
    decreases n
  {
    hide Xor, FoldOnce;
    if n == 0 {
    } else {
      FoldOnceXor(x, y);
      FoldXor(FoldOnce(x), FoldOnce(y), n - 1);
    }
  }

  /** A clock, with the rest of the message bits already mixed in, is one fold. */
  lemma ClockIsFold(register: bv32, bits: bv32)
    ensures Xor(Clock(register, Odd(bits)), Half(bits)) == FoldOnce(Xor(register, bits))
  {
    hide Xor, Half, Odd;
    XorHalf(register, bits);
    XorMoves(POLYNOMIAL, Half(register), Half(bits));
  }

  /** `bits` is below two to the n. */
  ghost predicate FitsIn(bits: bv32, n: nat)
    decreases n
  {
    if n == 0 then bits == 0 else FitsIn(Half(bits), n - 1)
  }

  lemma {:induction false} ClocksAreFolds(register: bv32, bits: bv32, n: nat)
    requires FitsIn(bits, n)
    ensures Clocks(register, bits, n) == Fold(Xor(register, bits), n)
    decreases n
  {
    hide Xor, Half, Odd, Clock, FoldOnce;
    if n == 0 {
      XorZero(register);
    } else {
      ClockIsFold(register, bits);
      ClocksAreFolds(Clock(register, Odd(bits)), Half(bits), n - 1);
    }
  }

  lemma ByteFits(b: bv8)
    ensures FitsIn(Wide(b), 8)
  {
    hide Half;
    var x := Wide(b);
    var y := Half(Half(Half(Half(x))));
    ByteHalves(b);
    assert FitsIn(y, 4) by {
      assert FitsIn(Half(Half(y)), 2);
    }
    assert FitsIn(Half(Half(x)), 6);
  }

  lemma ByteHalves(b: bv8)
    ensures Half(Half(Half(Half(Half(Half(Half(Half(Wide(b))))))))) == 0
  {
  }

  lemma EvenFold(x: bv32, n: nat)
    requires !Odd(x) && n > 0
    ensures Fold(x, n) == Fold(Half(x), n - 1)
  {
  }

  /** Four folds of a word whose low nibble is zero only move it. */
  lemma FoldNibble(z: bv32, n: nat)
    requires n >= 4
    requires !Odd(z) && !Odd(Half(z)) && !Odd(Half(Half(z))) && !Odd(Half(Half(Half(z))))
    ensures Fold(z, n) == Fold(Half(Half(Half(Half(z)))), n - 4)
  {
    hide Fold, Half, Odd;
    EvenFold(z, n);
    EvenFold(Half(z), n - 1);
    EvenFold(Half(Half(z)), n - 2);
    EvenFold(Half(Half(Half(z))), n - 3);
  }

  /** The word with its low byte cleared. */
  function Cleared(x: bv32): bv32 { (x >> 8) << 8 }

  lemma ClearedBits(x: bv32)
    ensures var z := Cleared(x);
            && !Odd(z) && !Odd(Half(z)) && !Odd(Half(Half(z))) && !Odd(Half(Half(Half(z))))
            && var w := Half(Half(Half(Half(z))));
            && !Odd(w) && !Odd(Half(w)) && !Odd(Half(Half(w))) && !Odd(Half(Half(Half(w))))
            && Half(Half(Half(Half(w)))) == HighBytes(x)
  {
    ShiftsAdd(Cleared(x));
    ShiftsAdd(Half(Half(Half(Half(Cleared(x))))));
  }

  lemma ShiftsAdd(z: bv32)
    ensures Half(Half(z)) == z >> 2 && Half(Half(Half(z))) == z >> 3 && Half(Half(Half(Half(z)))) == z >> 4
  {
  }

  lemma FoldCleared(x: bv32)
    ensures Fold(Cleared(x), 8) == HighBytes(x)
  {
    hide Half, Odd, FoldOnce, Cleared, HighBytes;
    ClearedBits(x);
    var z := Cleared(x);
    FoldNibble(z, 8);
    FoldNibble(Half(Half(Half(Half(z)))), 4);
  }

  lemma SplitWord(x: bv32)
    ensures x == Xor(LowByte(x), Cleared(x))
  {
  }

  /** One turn of the loop of `UpdateCrc32` is eight clocks of the register. */
  lemma TableStep(c: bv32, u: bv8)
    ensures Xor(Entry(Index(c, u)), HighBytes(c)) == Clocks(c, Wide(u), 8)
  {
    hide Fold, Clocks, Xor, Wide, LowByte, HighBytes, Cleared;
    var x := Xor(c, Wide(u));
    ByteFits(u);
    ClocksAreFolds(c, Wide(u), 8);
    SplitWord(x);
    FoldXor(LowByte(x), Cleared(x), 8);
    FoldCleared(x);
    HighUnchanged(c, u);
    IndexBack(x);
  }

  lemma HighUnchanged(c: bv32, u: bv8)
    ensures HighBytes(Xor(c, Wide(u))) == HighBytes(c)
  {
  }

  lemma IndexBack(x: bv32)
    ensures var v := LowByte(x) as bv8; Wide((v as int) as bv8) == LowByte(x)
  {
    ByteBack(LowByte(x) as bv8);
    NarrowBack(x);
  }

  lemma ByteBack(v: bv8)
    ensures (v as int) as bv8 == v
  {
  }

  lemma NarrowBack(x: bv32)
    ensures ((x & 0xFF) as bv8) as bv32 == x & 0xFF
  {
  }

  // ---------------------------------------------------------------------------------
  // Checksums compose

  lemma {:induction false} ShiftConcat(register: bv32, a: seq<bv8>, b: seq<bv8>)
    ensures Shift(register, a + b) == Shift(Shift(register, a), b)
    decreases |a|
  {
    hide Wide, Clocks;
    if a == [] {
      assert a + b == b;
    } else {
      assert (a + b)[1..] == a[1..] + b;
      ShiftConcat(Clocks(register, Wide(a[0]), 8), a[1..], b);
    }
  }

  /** Updating with a and then with b is updating with their concatenation. */
  lemma UpdateConcat(start: bv32, a: seq<bv8>, b: seq<bv8>)
    ensures Update(Update(start, a), b) == Update(start, a + b)
  {
    hide Xor, Shift;
    ShiftConcat(Xor(start, ALL_ONES), a, b);
    OnesCancel(Shift(Xor(start, ALL_ONES), a));
  }

  lemma OnesCancel(x: bv32)
    ensures Xor(Xor(x, ALL_ONES), ALL_ONES) == x
  {
  }
}
