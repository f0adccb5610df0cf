/**
  The frames between the Go signalling client and the C++ server: a 36-byte little-endian
  header followed by a body (signaling/src/framework/xrpc, xrtc_server/src/base/xhead.h).
 */
module Xrpc {

  import opened Common

  const HEADER_SIZE := 36

  const HEADER_MAGICNUM := 0xfb20_2202

  type uint16 = x: int | 0 <= x < 0x1_0000

  type uint32 = x: int | 0 <= x < 0x1_0000_0000

  datatype Header = Header(
    id: uint16, version: uint16, logId: uint32, provider: seq<byte>, magicNum: uint32, reserved: uint32, bodyLen: uint32)
  {
    ghost predicate Valid() { |provider| == 16 }
  }

  datatype Result<+T> = Ok(value: T) | Err

  // ---------------------------------------------------------------------------------
  // Little-endian integers

  function Put16(v: uint16): (b: seq<byte>)
    ensures |b| == 2
  {
    [(v % 0x100) as byte, (v / 0x100) as byte]
  }

  function Put32(v: uint32): (b: seq<byte>)
    ensures |b| == 4
  {
    var high := v / 0x100;
    var higher := high / 0x100;
    [(v % 0x100) as byte, (high % 0x100) as byte, (higher % 0x100) as byte, (higher / 0x100) as byte]
  }

  function Get16(b: seq<byte>): uint16
    requires |b| == 2
  {
    (b[0] as int) + 0x100 * (b[1] as int)
  }

  function Get32(b: seq<byte>): uint32
    requires |b| == 4
  {
    (b[0] as int) + 0x100 * (b[1] as int) + 0x1_0000 * (b[2] as int) + 0x100_0000 * (b[3] as int)
  }

  lemma Get16Put16(v: uint16)
    ensures Get16(Put16(v)) == v
  {
  }

  lemma Get32Put32(v: uint32)
    ensures Get32(Put32(v)) == v
  {
  }

  lemma PutGet16(b: seq<byte>)
    requires |b| == 2
    ensures Put16(Get16(b)) == b
  {
  }

  lemma PutGet32(b: seq<byte>)
    requires |b| == 4
    ensures Put32(Get32(b)) == b
  {
    var high := Get32(b) / 0x100;
    assert high == (b[1] as int) + 0x100 * (b[2] as int) + 0x1_0000 * (b[3] as int);
    assert high / 0x100 == (b[2] as int) + 0x100 * (b[3] as int);
  }

  // ---------------------------------------------------------------------------------
  // Headers

  /** The 36 bytes of a header. */
  function Encode(h: Header): (b: seq<byte>)
    requires h.Valid()
    ensures |b| == HEADER_SIZE
  {
    Put16(h.id) + Put16(h.version) + Put32(h.logId) + h.provider + Put32(h.magicNum) + Put32(h.reserved) + Put32(h.bodyLen)
  }

  /** The fields of the first 36 bytes. */
  function Decode(b: seq<byte>): (h: Header)
    requires |b| >= HEADER_SIZE
    ensures h.Valid()
  {
    Header(Get16(b[0..2]), Get16(b[2..4]), Get32(b[4..8]), b[8..24], Get32(b[24..28]), Get32(b[28..32]), Get32(b[32..36]))
  }

  lemma DecodeEncode(h: Header, rest: seq<byte>)
    requires h.Valid()
    ensures Decode(Encode(h) + rest) == h
  {
    var b := Encode(h) + rest;
    assert b[0..2] == Put16(h.id);
    assert b[2..4] == Put16(h.version);
    assert b[4..8] == Put32(h.logId);
    assert b[8..24] == h.provider;
    assert b[24..28] == Put32(h.magicNum);
    assert b[28..32] == Put32(h.reserved);
    assert b[32..36] == Put32(h.bodyLen);
    Get16Put16(h.id);
    Get16Put16(h.version);
    Get32Put32(h.logId);
    Get32Put32(h.magicNum);
    Get32Put32(h.reserved);
    Get32Put32(h.bodyLen);
  }

  /** `Header.Marshal`: fails on a short buffer, else fills its first 36 bytes and no others. */
  method Marshal(h: Header, b: array<byte>) returns (ok: bool)
    requires h.Valid()
    modifies b
    ensures ok == (b.Length >= HEADER_SIZE)
    ensures !ok ==> b[..] == old(b[..])
    ensures ok ==> b[..HEADER_SIZE] == Encode(h) && b[HEADER_SIZE..] == old(b[HEADER_SIZE..])
  {
    hide Put16, Put32;
    if b.Length < HEADER_SIZE {
      return false;
    }
    Copy(b, 0, Put16(h.id));
    Copy(b, 2, Put16(h.version));
    Copy(b, 4, Put32(h.logId));
    Copy(b, 8, h.provider);
    Copy(b, 24, Put32(h.magicNum));
    Copy(b, 28, Put32(h.reserved));
    Copy(b, 32, Put32(h.bodyLen));
    ok := true;
  }

  /** Writes `s` over `b` from position `at`. */
  method Copy(b: array<byte>, at: nat, s: seq<byte>)
    requires at + |s| <= b.Length
    modifies b
    ensures b[..at + |s|] == old(b[..at]) + s
    ensures forall k :: at + |s| <= k < b.Length ==> b[k] == old(b[k])
  {
    for i := 0 to |s|
      invariant b[..at + i] == old(b[..at]) + s[..i]
      invariant forall k :: at + i <= k < b.Length ==> b[k] == old(b[k])
    {
      b[at + i] := s[i];
    }
  }

  /** The first 36 bytes are the encoding of the header they decode to. */
  lemma EncodeDecode(b: seq<byte>)
    requires |b| >= HEADER_SIZE
    ensures Encode(Decode(b)) == b[..HEADER_SIZE]
  {
    PutGet16(b[0..2]);
    PutGet16(b[2..4]);
    PutGet32(b[4..8]);
    PutGet32(b[24..28]);
    PutGet32(b[28..32]);
    PutGet32(b[32..36]);
    hide Get16, Get32, Put16, Put32;
    assert b[..HEADER_SIZE] == b[0..2] + b[2..4] + b[4..8] + b[8..24] + b[24..28] + b[28..32] + b[32..36];
  }

  /** `Header.UnMarshal`: the header whose encoding stands in front, or an error if there are too few bytes. */
  method UnMarshal(b: seq<byte>) returns (r: Result<Header>)
    ensures r.Err? <==> |b| < HEADER_SIZE
    ensures r.Ok? ==> r.value.Valid() && b == Encode(r.value) + b[HEADER_SIZE..]
    ensures forall h: Header, rest: seq<byte> :: h.Valid() && b == Encode(h) + rest ==> r == Ok(h)
  {
    if |b| < HEADER_SIZE {
      return Err;
    }
    EncodeDecode(b);
    forall h: Header, rest: seq<byte> | h.Valid() && b == Encode(h) + rest
      ensures Decode(b) == h
    {
      DecodeEncode(h, rest);
    }
    return Ok(Decode(b));
  }

  // ---------------------------------------------------------------------------------
  // Requests and responses

  /** `NewRequest` over a buffer: the length field keeps 32 bits. */
  function NewHeader(bodyLen: nat, logId: uint32): (h: Header)
    ensures h.Valid()
  {
    Header(0, 0, logId, seq(16, _ => 0), HEADER_MAGICNUM, 0, bodyLen % 0x1_0000_0000)
  }

  /** `Request.Write`: the header, then as much of the body as the length field says. */
  function RequestFrame(body: seq<byte>, logId: uint32): seq<byte> {
    var h := NewHeader(|body|, logId);
    Encode(h) + body[..h.bodyLen]
  }

  /** What `_response_server_offer` sends: the request's header with a new length, then the body. */
  function ReplyFrame(header: seq<byte>, body: seq<byte>): seq<byte>
    requires |header| == HEADER_SIZE && |body| < 0x1_0000_0000
  {
    header[..32] + Put32(|body|) + body
  }

  datatype Response = Response(header: Header, body: seq<byte>)

  /** A connection as the client reads it. */
  class Stream {
    var data: seq<byte>

    constructor (data: seq<byte>)
      ensures this.data == data
    {
      this.data := data;
    }

    /** `io.ReadFull`: all n bytes or an error. */
    method ReadFull(n: nat) returns (r: Result<seq<byte>>)
      modifies this
      ensures r == if |old(data)| < n then Err else Ok(old(data)[..n])
      ensures r.Ok? ==> data == old(data)[n..]
    {
      if |data| < n {
        data := [];
        return Err;
      }
      r := Ok(data[..n]);
      data := data[n..];
    }
  }

  /** What `ReadResponse` makes of the bytes of a stream. */
  function Parse(b: seq<byte>): Result<Response> {
    if |b| < HEADER_SIZE then Err
    else
      var h := Decode(b);
      if h.magicNum != HEADER_MAGICNUM then Err
      else if |b| < HEADER_SIZE + h.bodyLen then Err
      else Ok(Response(h, b[HEADER_SIZE..HEADER_SIZE + h.bodyLen]))
  }

  method ReadResponse(r: Stream) returns (resp: Result<Response>)
    modifies r
    ensures resp == Parse(old(r.data))
    ensures resp.Ok? ==> r.data == old(r.data)[HEADER_SIZE + |resp.value.body|..]
  {
    var head := r.ReadFull(HEADER_SIZE);
    if head.Err? {
      return Err;
    }
    var h := UnMarshal(head.value);
    assert h.value == Decode(old(r.data)) by {
      assert head.value[HEADER_SIZE..] == [];
      DecodeEncode(h.value, []);
      DecodePrefix(old(r.data));
    }
    if h.value.magicNum != HEADER_MAGICNUM {
      return Err;
    }
    var body := r.ReadFull(h.value.bodyLen);
    if body.Err? {
      return Err;
    }
    assert body.value == old(r.data)[HEADER_SIZE..HEADER_SIZE + h.value.bodyLen];
    return Ok(Response(h.value, body.value));
  }

  lemma DecodePrefix(b: seq<byte>)
    requires |b| >= HEADER_SIZE
    ensures Decode(b[..HEADER_SIZE]) == Decode(b)
  {
    var p := b[..HEADER_SIZE];
    assert p[0..2] == b[0..2] && p[2..4] == b[2..4] && p[4..8] == b[4..8] && p[8..24] == b[8..24];
    assert p[24..28] == b[24..28] && p[28..32] == b[28..32] && p[32..36] == b[32..36];
  }

  /** The header of a reply is the request's, except for the length. */
  lemma ReplyHeader(h: Header, body: seq<byte>, rest: seq<byte>)
    requires h.Valid() && |body| < 0x1_0000_0000
    ensures Decode(ReplyFrame(Encode(h), body) + rest) == h.(bodyLen := |body|)
  {
    var h' := h.(bodyLen := |body|);
    assert Encode(h)[..32] == Encode(h')[..32];
    assert Encode(h') == Encode(h)[..32] + Put32(|body|);
    assert ReplyFrame(Encode(h), body) + rest == Encode(h') + (body + rest);
    DecodeEncode(h', body + rest);
  }

  /** The client reads back exactly the body the server put in its reply, and no byte more. */
  lemma ReplyIsReadBack(h: Header, body: seq<byte>, rest: seq<byte>)
    requires h.Valid() && h.magicNum == HEADER_MAGICNUM && |body| < 0x1_0000_0000
    ensures Parse(ReplyFrame(Encode(h), body) + rest) == Ok(Response(h.(bodyLen := |body|), body))
  {
    ReplyHeader(h, body, rest);
    var b := ReplyFrame(Encode(h), body) + rest;
    assert b[HEADER_SIZE..HEADER_SIZE + |body|] == body;
  }
}
