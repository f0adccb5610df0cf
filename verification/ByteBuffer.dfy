/**
  `ByteBufferWriter` and `ByteBufferReader`
  (xrtc_server/thirdlib/rtcbase_v1/src/rtc_base/byte_buffer.h and byte_buffer.cc): typed values
  in network byte order and varints.
 */
module ByteBuffer {

  import opened Common

  const LIMIT: nat := 0x1_0000_0000_0000_0000

  function Pow(base: nat, k: nat): nat {
    if k == 0 then 1 else base * Pow(base, k - 1)
  }

  // Fixed width, most significant byte first.

  function BigEndian(n: nat, width: nat): (r: seq<byte>)
    ensures |r| == width
  {
    if width == 0 then [] else BigEndian(n / 256, width - 1) + [(n % 256) as byte]
  }

  function FromBigEndian(s: seq<byte>): nat {
    if s == [] then 0 else FromBigEndian(s[..|s| - 1]) * 256 + s[|s| - 1] as nat
  }

  lemma PowPositive(base: nat, k: nat)
    requires base > 0
    ensures Pow(base, k) > 0
  {
  }

  lemma ModSplit(n: nat, p: nat)
    requires p > 0
    ensures n % (256 * p) == (n / 256) % p * 256 + n % 256
  {
    var (q, r) := (n / 256, n % 256);
    var (a, b) := (q / p, q % p);
    assert n == a * (256 * p) + (b * 256 + r) by {
      assert q == a * p + b;
      assert q * 256 == a * p * 256 + b * 256;
    }
    assert 0 <= b * 256 + r < 256 * p;
    DivModUnique(n, 256 * p, a, b * 256 + r);
  }

  lemma DivModUnique(n: nat, d: nat, q: nat, r: nat)
    requires d > 0 && n == q * d + r && r < d
    ensures n % d == r
  {
    var (x, y) := (n / d, n % d);
    assert n == x * d + y;
    if x > q {
      AtLeastOne(x, q, d);
      assert false;
    } else if x < q {
      AtLeastOne(q, x, d);
      assert false;
    }
  }

  lemma {:induction false} AtLeastOne(x: nat, q: nat, d: nat)
    requires x > q
    ensures x * d >= q * d + d
    decreases x
  {
    assert x * d == (x - 1) * d + d;
    if x > q + 1 {
      AtLeastOne(x - 1, q, d);
    }
  }

  /** Writing keeps the value modulo the width. */
  lemma {:induction false} BigEndianRoundTrip(n: nat, width: nat)
    ensures Pow(256, width) > 0 && FromBigEndian(BigEndian(n, width)) == n % Pow(256, width)
  {
    PowPositive(256, width);
    if width > 0 {
      BigEndianRoundTrip(n / 256, width - 1);
      var s := BigEndian(n, width);
      assert s[..|s| - 1] == BigEndian(n / 256, width - 1);
      ModSplit(n, Pow(256, width - 1));
    }
  }

  // Varints.

  /** Seven bits a byte, low bits first, the top bit set on all but the last. */
  function Varint(v: nat): (r: seq<byte>)
    ensures r != []
  {
    if v < 128 then [v as byte] else [(v % 128 + 128) as byte] + Varint(v / 128)
  }

  lemma {:induction false} VarintLength(v: nat, k: nat)
    requires k > 0 && v < Pow(128, k)
    ensures |Varint(v)| <= k
  {
    if v >= 128 {
      assert k > 1 by { assert Pow(128, 1) == 128 * Pow(128, 0); }
      assert v / 128 < Pow(128, k - 1) by {
        assert v < 128 * Pow(128, k - 1);
      }
      VarintLength(v / 128, k - 1);
    }
  }

  /** What the reading loop has found: the value, if any, and the number of bytes used up. */
  datatype Scanned = Scanned(value: Option<nat>, used: nat)

  /** Seven more bits above the `7 * k` read so far; a shift drops what leaves the 64 bits. */
  function Place(v: nat, b: byte, k: nat): nat {
    (v + b as nat % 128 * Pow(128, k)) % LIMIT
  }

  /** The loop of `ReadUVarint` from its `k`-th byte on, with `v` read so far. */
  function Scan(s: seq<byte>, k: nat, v: nat): Scanned
    requires k <= 10
    decreases 10 - k
  {
    if k == 10 || s == [] then Scanned(None, 0)
    else
      var w := Place(v, s[0], k);
      if s[0] < 128 then Scanned(Some(w), 1)
      else
        var rest := Scan(s[1..], k + 1, w);
        Scanned(rest.value, rest.used + 1)
  }

  lemma LastByte(v: nat, k: nat, acc: nat)
    requires v < 128 && acc + v * Pow(128, k) < LIMIT
    ensures Place(acc, v as byte, k) == acc + v * Pow(128, k)
  {
    hide Pow;
    assert v % 128 == v;
  }

  lemma Carry(v: nat, k: nat, acc: nat)
    requires v >= 128 && acc < Pow(128, k) && acc + v * Pow(128, k) < LIMIT
    ensures acc + v % 128 * Pow(128, k) < Pow(128, k + 1)
    ensures acc + v % 128 * Pow(128, k) + v / 128 * Pow(128, k + 1) == acc + v * Pow(128, k)
    ensures Place(acc, (v % 128 + 128) as byte, k) == acc + v % 128 * Pow(128, k)
  {
    var (p, q, r) := (Pow(128, k), v / 128, v % 128);
    assert Pow(128, k + 1) == 128 * p;
    hide Pow;
    assert v == 128 * q + r;
    Distribute(q, r, p);
    AtLeastOne(128, r, p);
    assert (r + 128) % 128 == r;
  }

  lemma TenthByte(v: nat, k: nat)
    requires v * Pow(128, k) < LIMIT && v > 0 && k <= 10
    ensures k < 10
  {
    if k == 10 {
      TenSevens();
      AtLeastOne(v, 0, Pow(128, k));
    }
  }

  /** Every varint of 64 bits is read back to itself, whatever comes behind it. */
  lemma {:induction false} VarintScans(v: nat, k: nat, acc: nat, rest: seq<byte>)
    requires k <= 10 && acc < Pow(128, k) && acc + v * Pow(128, k) < LIMIT && (k > 0 ==> v > 0)
    ensures Scan(Varint(v) + rest, k, acc) == Scanned(Some(acc + v * Pow(128, k)), |Varint(v)|)
    decreases v
  {
    if k > 0 {
      TenthByte(v, k);
    }
    hide Pow, Place;
    var s := Varint(v) + rest;
    if v < 128 {
      LastByte(v, k, acc);
    } else {
      Carry(v, k, acc);
      assert s[1..] == Varint(v / 128) + rest;
      VarintScans(v / 128, k + 1, acc + v % 128 * Pow(128, k), rest);
    }
  }

  lemma Distribute(q: nat, r: nat, p: nat)
    ensures (128 * q + r) * p == q * (128 * p) + r * p
  {
  }

  lemma TenSevens()
    ensures Pow(128, 10) >= LIMIT
  {
    assert Pow(128, 2) == 16384;
    assert Pow(128, 4) == 268435456;
    assert Pow(128, 6) == 268435456 * 16384;
    assert Pow(128, 8) == 268435456 * 268435456;
  }

  /** Reading succeeds exactly on input that ends a varint within its first ten bytes. */
  lemma {:induction false} ScanSucceedsIff(s: seq<byte>, k: nat, v: nat)
    requires k <= 10
    ensures Scan(s, k, v).value.Some? <==> exists j :: 0 <= j < |s| && j < 10 - k && s[j] < 128
    ensures Scan(s, k, v).used <= |s| && Scan(s, k, v).used <= 10 - k
    decreases 10 - k
  {
    if k < 10 && s != [] && s[0] >= 128 {
      ScanSucceedsIff(s[1..], k + 1, Place(v, s[0], k));
      if j :| 0 <= j < |s| && j < 10 - k && s[j] < 128 {
        assert s[1..][j - 1] == s[j];
      }
      if j :| 0 <= j < |s| - 1 && j < 9 - k && s[1..][j] < 128 {
        assert s[j + 1] < 128;
      }
    }
  }

  // Typed values.

  datatype Item =
    | UInt8(n: nat) | UInt16(n: nat) | UInt24(n: nat) | UInt32(n: nat) | UInt64(n: nat)
    | UVarint(n: nat)
    | Bytes(bytes: seq<byte>)

  /** What is asked of the reader. */
  datatype Kind = Fixed(width: nat) | Variable | Raw(length: nat)

  datatype Value = Number(n: nat) | Data(bytes: seq<byte>)

  /** The argument fits the parameter type of its write function; the 24-bit one takes 32 bits. */
  predicate Fits(i: Item) {
    match i
    case UInt8(n) => n < 0x100
    case UInt16(n) => n < 0x1_0000
    case UInt24(n) => n < 0x1_0000_0000
    case UInt32(n) => n < 0x1_0000_0000
    case UInt64(n) => n < LIMIT
    case UVarint(n) => n < LIMIT
    case Bytes(_) => true
  }

  function Encode(i: Item): seq<byte> {
    match i
    case UInt8(n) => BigEndian(n, 1)
    case UInt16(n) => BigEndian(n, 2)
    case UInt24(n) => BigEndian(n, 3)
    case UInt32(n) => BigEndian(n, 4)
    case UInt64(n) => BigEndian(n, 8)
    case UVarint(n) => Varint(n)
    case Bytes(b) => b
  }

  function KindOf(i: Item): Kind {
    match i
    case UInt8(_) => Fixed(1)
    case UInt16(_) => Fixed(2)
    case UInt24(_) => Fixed(3)
    case UInt32(_) => Fixed(4)
    case UInt64(_) => Fixed(8)
    case UVarint(_) => Variable
    case Bytes(b) => Raw(|b|)
  }

  /** What a reader can be expected to find. */
  function ValueOf(i: Item): Value {
    match i
    case UInt24(n) => Number(n % 0x100_0000)
    case Bytes(b) => Data(b)
    case _ => Number(i.n)
  }

  /** One read from the front of `s`: the value, if there is one, and the bytes used up. */
  function Read(kind: Kind, s: seq<byte>): (Option<Value>, nat) {
    match kind
    case Fixed(w) => if w <= |s| then (Some(Number(FromBigEndian(s[..w]))), w) else (None, 0)
    case Variable =>
      var r := Scan(s, 0, 0);
      (if r.value.Some? then Some(Number(r.value.value)) else None, r.used)
    case Raw(n) => if n <= |s| then (Some(Data(s[..n])), n) else (None, 0)
  }

  lemma FixedReadsBack(n: nat, width: nat, rest: seq<byte>)
    ensures Pow(256, width) > 0 && Read(Fixed(width), BigEndian(n, width) + rest) == (Some(Number(n % Pow(256, width))), width)
  {
    BigEndianRoundTrip(n, width);
    hide Pow, BigEndian, FromBigEndian;
    assert (BigEndian(n, width) + rest)[..width] == BigEndian(n, width);
  }

  lemma VariableReadsBack(n: nat, rest: seq<byte>)
    requires n < LIMIT
    ensures Read(Variable, Varint(n) + rest) == (Some(Number(n)), |Varint(n)|)
  {
    assert Pow(128, 0) == 1;
    VarintScans(n, 0, 0, rest);
  }

  lemma ReadsBack(i: Item, rest: seq<byte>)
    requires Fits(i)
    ensures Read(KindOf(i), Encode(i) + rest) == (Some(ValueOf(i)), |Encode(i)|)
  {
    Powers();
    hide Read, Pow, BigEndian, Varint;
    match i
    case UInt8(n) => FixedReadsBack(n, 1, rest);
    case UInt16(n) => FixedReadsBack(n, 2, rest);
    case UInt24(n) => FixedReadsBack(n, 3, rest);
    case UInt32(n) => FixedReadsBack(n, 4, rest);
    case UInt64(n) => FixedReadsBack(n, 8, rest);
    case UVarint(n) => VariableReadsBack(n, rest);
    case Bytes(b) => RawReadsBack(b, rest);
  }

  lemma RawReadsBack(b: seq<byte>, rest: seq<byte>)
    ensures Read(Raw(|b|), b + rest) == (Some(Data(b)), |b|)
  {
    assert (b + rest)[..|b|] == b;
  }

  lemma Powers()
    ensures Pow(256, 1) == 0x100 && Pow(256, 2) == 0x1_0000 && Pow(256, 3) == 0x100_0000 && Pow(256, 4) == 0x1_0000_0000
    ensures Pow(256, 8) == LIMIT && Pow(128, 0) == 1
  {
    assert Pow(256, 6) == 0x1_0000_0000 * 0x1_0000;
  }

  function EncodeAll(items: seq<Item>): seq<byte> {
    if items == [] then [] else Encode(items[0]) + EncodeAll(items[1..])
  }

  /** A varint of 64 bits takes at most ten bytes. */
  lemma VarintAtMostTen(n: nat)
    requires n < LIMIT
    ensures |Varint(n)| <= 10
  {
    TenSevens();
    VarintLength(n, 10);
  }

  // The objects.

  class Writer {
    var buffer: seq<byte>

    constructor ()
      ensures buffer == []
    {
      buffer := [];
    }

    method WriteUVarint(n: nat)
      requires n < LIMIT
      modifies this
      ensures buffer == old(buffer) + Varint(n)
    {
      var v: nat := n;
      while v >= 128
        invariant v < LIMIT && buffer + Varint(v) == old(buffer) + Varint(n)
      {
        var b := (v % 128 + 128) as byte;
        assert buffer + [b] + Varint(v / 128) == buffer + ([b] + Varint(v / 128));
        buffer := buffer + [b];
        v := v / 128;
      }
      buffer := buffer + [v as byte];
    }

    method Write(i: Item)
      requires Fits(i)
      modifies this
      ensures buffer == old(buffer) + Encode(i)
    {
      match i {
        case UVarint(n) => WriteUVarint(n);
        case Bytes(b) => buffer := buffer + b;
        case UInt8(n) => buffer := buffer + BigEndian(n, 1);
        case UInt16(n) => buffer := buffer + BigEndian(n, 2);
        case UInt24(n) => buffer := buffer + BigEndian(n, 4)[1..];
          assert BigEndian(n, 4)[1..] == BigEndian(n, 3) by { DropTop(n, 3); }
        case UInt32(n) => buffer := buffer + BigEndian(n, 4);
        case UInt64(n) => buffer := buffer + BigEndian(n, 8);
      }
    }
  }

  /** Dropping the first byte of a wider number leaves the narrower one. */
  lemma {:induction false} DropTop(n: nat, width: nat)
    ensures BigEndian(n, width + 1)[1..] == BigEndian(n, width)
  {
    if width > 0 {
      DropTop(n / 256, width - 1);
    }
  }

  class Reader {
    const bytes: seq<byte>
    var start: nat

    constructor (bytes: seq<byte>)
      ensures this.bytes == bytes && start == 0
    {
      this.bytes := bytes;
      start := 0;
    }

    ghost predicate Valid()
      reads this
    {
      start <= |bytes|
    }

    method ReadBytes(length: nat) returns (r: Option<seq<byte>>)
      requires Valid()
      modifies this
      ensures Valid()
      ensures if length <= |bytes| - old(start) then r == Some(bytes[old(start)..][..length]) && start == old(start) + length
              else r == None && start == old(start)
    {
      if length > |bytes| - start {
        return None;
      }
      r := Some(bytes[start..start + length]);
      assert bytes[start..start + length] == bytes[start..][..length];
      start := start + length;
    }

    method ReadUVarint() returns (r: Option<nat>)
      requires Valid()
      modifies this
      ensures Valid()
      ensures var s := Scan(bytes[old(start)..], 0, 0); r == s.value && start == old(start) + s.used
    {
      var v := 0;
      ghost var whole := Scan(bytes[start..], 0, 0);
      for k := 0 to 10
        invariant Valid() && old(start) + k == start
        invariant var s := Scan(bytes[start..], k, v); whole == Scanned(s.value, s.used + k)
      {
        ghost var before := bytes[start..];
        var b := ReadBytes(1);
        if b.None? {
          return None;
        }
        assert before[1..] == bytes[start..];
        v := Place(v, b.value[0], k);
        if b.value[0] < 128 {
          return Some(v);
        }
      }
      return None;
    }

    /** The fixed-width reads, varints and raw bytes, as `kind` asks. */
    method ReadKind(kind: Kind) returns (r: Option<Value>)
      requires Valid()
      modifies this
      ensures Valid()
      ensures (r, start - old(start)) == Read(kind, bytes[old(start)..])
    {
      match kind {
        case Fixed(w) =>
          var b := ReadBytes(w);
          r := if b.Some? then Some(Number(FromBigEndian(b.value))) else None;
        case Variable =>
          var n := ReadUVarint();
          r := if n.Some? then Some(Number(n.value)) else None;
        case Raw(n) =>
          var b := ReadBytes(n);
          r := if b.Some? then Some(Data(b.value)) else None;
      }
    }
  }

  method WriteAll(items: seq<Item>) returns (w: Writer)
    requires forall i :: i in items ==> Fits(i)
    ensures fresh(w) && w.buffer == EncodeAll(items)
  {
    hide Encode, Fits;
    w := new Writer();
    for k := 0 to |items|
      invariant w.buffer + EncodeAll(items[k..]) == EncodeAll(items)
    {
      assert items[k..][1..] == items[k + 1..];
      ghost var before := w.buffer;
      w.Write(items[k]);
      assert before + (Encode(items[k]) + EncodeAll(items[k + 1..])) == w.buffer + EncodeAll(items[k + 1..]);
    }
    assert items[|items|..] == [];
  }

  /** Reading the kinds of some items from their encoding gives the items, whatever comes behind. */
  method ReadItems(r: Reader, items: seq<Item>, ghost behind: seq<byte>) returns (values: seq<Value>)
    requires forall i :: i in items ==> Fits(i)
    requires r.Valid() && r.bytes[r.start..] == EncodeAll(items) + behind
    modifies r
    ensures r.Valid() && values == Map(ValueOf, items) && r.bytes[r.start..] == behind
  {
    hide Encode, Fits, KindOf, ValueOf, Read;
    values := [];
    for k := 0 to |items|
      invariant r.Valid() && r.bytes[r.start..] == EncodeAll(items[k..]) + behind
      invariant values == Map(ValueOf, items)[..k]
    {
      ghost var next := EncodeAll(items[k + 1..]) + behind;
      assert items[k..][1..] == items[k + 1..];
      assert r.bytes[r.start..] == Encode(items[k]) + next;
      ReadsBack(items[k], next);
      ghost var was := r.start;
      var v := r.ReadKind(KindOf(items[k]));
      assert r.bytes[r.start..] == r.bytes[was..][r.start - was..] == next;
      values := values + [v.value];
    }
    assert items[|items|..] == [];
  }

  /** What is written is read back, and exactly the bytes written are used up. */
  method Exchange(items: seq<Item>, behind: seq<byte>) returns (values: seq<Value>, used: nat, written: nat)
    requires forall i :: i in items ==> Fits(i)
    ensures values == Map(ValueOf, items) && used == written == |EncodeAll(items)|
  {
    var w := WriteAll(items);
    written := |w.buffer|;
    var r := new Reader(w.buffer + behind);
    assert r.bytes[0..] == w.buffer + behind;
    values := ReadItems(r, items, behind);
    used := r.start;
    assert |r.bytes[r.start..]| == |behind|;
  }
}
