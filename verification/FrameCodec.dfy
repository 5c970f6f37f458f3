/** The binary frames of the transfer channel. */
module FrameCodec {
  import opened Common

  const MAGIC := 0x5249_534b
  const VERSION := 1
  const HEADER_BYTES := 16
  const MAX_METADATA_BYTES := 16 * 1024
  const MAX_PAYLOAD_BYTES := 256 * 1024
  /** `MAX_TRANSFER_FRAME_BYTES` of the data channel. */
  const MAX_FRAME_BYTES := 320 * 1024
  const MAX_SAFE_INTEGER := 0x1f_ffff_ffff_ffff

  datatype Metadata = Metadata(transferId: string, attachmentId: string, index: int, offset: int, size: int, hash: string)

  datatype Frame = Frame(metadata: Metadata, payload: seq<Byte>)

  /** JSON text in UTF-8, assumed to read back what it wrote. */
  datatype Json = Json(write: Metadata -> seq<Byte>, read: seq<Byte> -> Option<Metadata>) {
    ghost predicate Valid() { forall m :: read(write(m)) == Some(m) }
  }

  predicate IsHex(c: char) { '0' <= c <= '9' || 'a' <= c <= 'f' || 'A' <= c <= 'F' }

  predicate IsSafe(n: int) { 0 <= n <= MAX_SAFE_INTEGER }

  /** `validateFrame`. */
  predicate ValidFrame(f: Frame) {
    var m := f.metadata;
    && 0 < |m.transferId| <= 128 && 0 < |m.attachmentId| <= 128
    && IsSafe(m.index) && IsSafe(m.offset) && IsSafe(m.size) && m.size == |f.payload|
    && |m.hash| == 64 && forall k | 0 <= k < 64 :: IsHex(m.hash[k])
  }

  // ---- Big-endian numbers ----

  function Put16(n: nat): seq<Byte>
    requires n < 0x1_0000
  {
    [n / 0x100, n % 0x100]
  }

  function Put32(n: nat): seq<Byte>
    requires n < 0x1_0000_0000
  {
    [n / 0x100_0000, n / 0x1_0000 % 0x100, n / 0x100 % 0x100, n % 0x100]
  }

  function Get16(b: seq<Byte>, at: nat): nat
    requires at + 2 <= |b|
  {
    b[at] as int * 0x100 + b[at + 1] as int
  }

  function Get32(b: seq<Byte>, at: nat): nat
    requires at + 4 <= |b|
  {
    b[at] as int * 0x100_0000 + b[at + 1] as int * 0x1_0000 + b[at + 2] as int * 0x100 + b[at + 3] as int
  }

  lemma Bytes32(n: nat)
    requires n < 0x1_0000_0000
    ensures Get32(Put32(n), 0) == n
  {
    var q1, q2, q3 := n / 0x100, n / 0x1_0000, n / 0x100_0000;
    assert n == q1 * 0x100 + n % 0x100;
    assert q1 == q2 * 0x100 + q1 % 0x100;
    assert q2 == q3 * 0x100 + q2 % 0x100;
  }

  lemma BytesOfGet32(b: seq<Byte>, at: nat)
    requires at + 4 <= |b|
    ensures Get32(b, at) < 0x1_0000_0000 && Put32(Get32(b, at)) == b[at..at + 4]
  {
    var n, x0, x1, x2, x3 := Get32(b, at), b[at] as int, b[at + 1] as int, b[at + 2] as int, b[at + 3] as int;
    assert n / 0x100_0000 == x0;
    assert n / 0x1_0000 == x0 * 0x100 + x1;
    assert n / 0x100 == x0 * 0x1_0000 + x1 * 0x100 + x2;
  }

  // ---- The code ----

  function Header(flags: Byte, metadata: nat, payload: nat): (h: seq<Byte>)
    requires metadata < 0x1_0000_0000 && payload < 0x1_0000_0000
    ensures |h| == HEADER_BYTES
  {
    Put32(MAGIC) + [VERSION, flags] + Put16(HEADER_BYTES) + Put32(metadata) + Put32(payload)
  }

  /** `encodeAttachmentChunkFrame`; None is a thrown error. */
  function Encode(j: Json, f: Frame): Option<seq<Byte>> {
    var text := j.write(f.metadata);
    if !ValidFrame(f) || |text| > MAX_METADATA_BYTES || |f.payload| > MAX_PAYLOAD_BYTES then None
    else Some(Header(0, |text|, |f.payload|) + text + f.payload)
  }

  /** `decodeAttachmentChunkFrame`. */
  function Decode(j: Json, b: seq<Byte>): Option<Frame> {
    if |b| < HEADER_BYTES || Get32(b, 0) != MAGIC || b[4] != VERSION || Get16(b, 6) != HEADER_BYTES then None
    else
      var metadata, payload := Get32(b, 8), Get32(b, 12);
      if metadata > MAX_METADATA_BYTES || payload > MAX_PAYLOAD_BYTES || HEADER_BYTES + metadata + payload != |b| then None
      else
        var m := j.read(b[HEADER_BYTES..HEADER_BYTES + metadata]);
        if m.None? then None
        else
          var f := Frame(m.value, b[HEADER_BYTES + metadata..HEADER_BYTES + metadata + payload]);
          if !ValidFrame(f) || m.value.size != payload then None else Some(f)
  }

  // ---- What the code means ----

  /** The format: header, metadata text, payload and nothing else; the flag byte is free. */
  ghost predicate IsFrame(j: Json, b: seq<Byte>, f: Frame, flags: Byte, text: seq<Byte>) {
    && |text| <= MAX_METADATA_BYTES && |f.payload| <= MAX_PAYLOAD_BYTES
    && b == Header(flags, |text|, |f.payload|) + text + f.payload
    && j.read(text) == Some(f.metadata) && ValidFrame(f)
  }

  lemma HeaderFields(flags: Byte, metadata: nat, payload: nat, rest: seq<Byte>)
    requires metadata < 0x1_0000_0000 && payload < 0x1_0000_0000
    ensures var b := Header(flags, metadata, payload) + rest;
      Get32(b, 0) == MAGIC && b[4] == VERSION && b[5] == flags && Get16(b, 6) == HEADER_BYTES && Get32(b, 8) == metadata && Get32(b, 12) == payload
  {
    Bytes32(MAGIC);
    Bytes32(metadata);
    Bytes32(payload);
  }

  lemma HeaderIsDetermined(b: seq<Byte>)
    requires |b| >= HEADER_BYTES && Get32(b, 0) == MAGIC && b[4] == VERSION && Get16(b, 6) == HEADER_BYTES
    ensures Get32(b, 8) < 0x1_0000_0000 && Get32(b, 12) < 0x1_0000_0000
    ensures b[..HEADER_BYTES] == Header(b[5], Get32(b, 8), Get32(b, 12))
  {
    BytesOfGet32(b, 0);
    BytesOfGet32(b, 8);
    BytesOfGet32(b, 12);
    var h := Header(b[5], Get32(b, 8), Get32(b, 12));
    assert Put16(HEADER_BYTES) == b[6..8] by { assert b[6] as int * 0x100 + b[7] as int == 16; }
    assert h == b[0..4] + [b[4], b[5]] + b[6..8] + b[8..12] + b[12..16];
    assert b[..HEADER_BYTES] == b[0..4] + [b[4], b[5]] + b[6..8] + b[8..12] + b[12..16];
  }

  lemma DecodedIsFrame(j: Json, b: seq<Byte>, f: Frame)
    requires Decode(j, b) == Some(f)
    ensures |b| >= HEADER_BYTES && exists text :: IsFrame(j, b, f, b[5], text)
  {
    hide ValidFrame, Header, Get32, Get16;
    HeaderIsDetermined(b);
    var n := Get32(b, 8);
    var text := b[HEADER_BYTES..HEADER_BYTES + n];
    assert b == b[..HEADER_BYTES] + text + b[HEADER_BYTES + n..];
    assert IsFrame(j, b, f, b[5], text);
  }

  lemma FrameIsDecoded(j: Json, b: seq<Byte>, f: Frame, flags: Byte, text: seq<Byte>)
    requires IsFrame(j, b, f, flags, text)
    ensures Decode(j, b) == Some(f)
  {
    assert f.metadata.size == |f.payload|;
    hide ValidFrame, Header, Get32, Get16;
    HeaderFields(flags, |text|, |f.payload|, text + f.payload);
    assert b == Header(flags, |text|, |f.payload|) + (text + f.payload);
    assert b[HEADER_BYTES..HEADER_BYTES + |text|] == text;
    assert b[HEADER_BYTES + |text|..HEADER_BYTES + |text| + |f.payload|] == f.payload;
  }

  /** Decoding accepts exactly the byte strings of the format, whatever the flag byte says. */
  lemma {:induction false} DecodeAcceptsExactly(j: Json, b: seq<Byte>, f: Frame)
    ensures Decode(j, b) == Some(f) <==> exists flags, text :: IsFrame(j, b, f, flags, text)
  {
    hide Decode, IsFrame;
    if Decode(j, b) == Some(f) {
      DecodedIsFrame(j, b, f);
      var flags: Byte := b[5];
      var text :| IsFrame(j, b, f, flags, text);
    }
    if flags, text :| IsFrame(j, b, f, flags, text) { FrameIsDecoded(j, b, f, flags, text); }
  }

  /** Every frame that can be encoded reads back unchanged. */
  lemma RoundTrip(j: Json, f: Frame)
    requires j.Valid() && Encode(j, f).Some?
    ensures Decode(j, Encode(j, f).value) == Some(f)
  {
    var b := Encode(j, f).value;
    DecodeAcceptsExactly(j, b, f);
    assert IsFrame(j, b, f, 0, j.write(f.metadata));
  }

  /** Frames fit the transport, and decoding only accepts buffers of exactly the announced length. */
  lemma FramesFit(j: Json, f: Frame, b: seq<Byte>)
    requires Encode(j, f) == Some(b) || Decode(j, b) == Some(f)
    ensures HEADER_BYTES + |f.payload| <= |b| <= HEADER_BYTES + MAX_METADATA_BYTES + MAX_PAYLOAD_BYTES < MAX_FRAME_BYTES
    ensures |b| == HEADER_BYTES + Get32(b, 8) + Get32(b, 12) && Get32(b, 12) == |f.payload| == f.metadata.size
  {
    if Encode(j, f) == Some(b) {
      var text := j.write(f.metadata);
      HeaderFields(0, |text|, |f.payload|, text + f.payload);
      assert b == Header(0, |text|, |f.payload|) + (text + f.payload);
    }
  }

  // ---- Writing into a buffer ----

  method SetUint32(a: array<Byte>, at: nat, n: nat)
    requires at + 4 <= a.Length && n < 0x1_0000_0000
    modifies a
    ensures a[..] == old(a[..at]) + Put32(n) + old(a[at + 4..])
  {
    a[at], a[at + 1], a[at + 2], a[at + 3] := n / 0x100_0000, n / 0x1_0000 % 0x100, n / 0x100 % 0x100, n % 0x100;
  }

  method SetBytes(a: array<Byte>, at: nat, bytes: seq<Byte>)
    requires at + |bytes| <= a.Length
    modifies a
    ensures a[..] == old(a[..at]) + bytes + old(a[at + |bytes|..])
  {
    for k := 0 to |bytes|
      invariant forall i | 0 <= i < a.Length :: a[i] == if at <= i < at + k then bytes[i - at] else old(a[i])
    {
      a[at + k] := bytes[k];
    }
  }

  /** `encodeAttachmentChunkFrame`, field by field through the view. */
  method EncodeFrame(j: Json, f: Frame) returns (out: Option<array<Byte>>)
    ensures out.Some? == Encode(j, f).Some?
    ensures out.Some? ==> out.value[..] == Encode(j, f).value
  {
    var text := j.write(f.metadata);
    if !ValidFrame(f) || |text| > MAX_METADATA_BYTES || |f.payload| > MAX_PAYLOAD_BYTES { return None; }
    var a := new Byte[HEADER_BYTES + |text| + |f.payload|](_ => 0);
    SetUint32(a, 0, MAGIC);
    a[4], a[5], a[6], a[7] := VERSION, 0, HEADER_BYTES / 0x100, HEADER_BYTES % 0x100;
    assert a[..8] == Put32(MAGIC) + [VERSION, 0] + Put16(HEADER_BYTES);
    SetUint32(a, 8, |text|);
    SetUint32(a, 12, |f.payload|);
    assert a[..16] == Header(0, |text|, |f.payload|);
    SetBytes(a, HEADER_BYTES, text);
    SetBytes(a, HEADER_BYTES + |text|, f.payload);
    assert a[..] == Header(0, |text|, |f.payload|) + text + f.payload;
    out := Some(a);
  }

  // ---- The limits, in plain numbers ----

  const HEX_CHARS := "0123456789abcdefABCDEF"

  lemma HexMeans(c: char)
    ensures IsHex(c) <==> c in HEX_CHARS
  {
    if c in HEX_CHARS {
      var k :| 0 <= k < |HEX_CHARS| && HEX_CHARS[k] == c;
    } else {
      assert c != HEX_CHARS[0] && c != HEX_CHARS[1] && c != HEX_CHARS[2] && c != HEX_CHARS[3] && c != HEX_CHARS[4] && c != HEX_CHARS[5];
      assert c != HEX_CHARS[6] && c != HEX_CHARS[7] && c != HEX_CHARS[8] && c != HEX_CHARS[9] && c != HEX_CHARS[10] && c != HEX_CHARS[11];
      assert c != HEX_CHARS[12] && c != HEX_CHARS[13] && c != HEX_CHARS[14] && c != HEX_CHARS[15] && c != HEX_CHARS[16] && c != HEX_CHARS[17];
      assert c != HEX_CHARS[18] && c != HEX_CHARS[19] && c != HEX_CHARS[20] && c != HEX_CHARS[21];
    }
  }

  /** Which frames can be encoded: ids of 1 to 128 characters, 64 hexadecimal digits, safe integers, and what fits the limits. */
  lemma EncodesExactlyWhen(j: Json, f: Frame)
    ensures var m := f.metadata;
      Encode(j, f).Some? <==>
        && 1 <= |m.transferId| <= 128 && 1 <= |m.attachmentId| <= 128
        && 0 <= m.index < 9007199254740992 && 0 <= m.offset < 9007199254740992 && m.size == |f.payload| <= 262144
        && |m.hash| == 64 && (forall k | 0 <= k < 64 :: m.hash[k] in HEX_CHARS)
        && |j.write(m)| <= 16384
  {
    hide IsHex;
    forall c ensures IsHex(c) <==> c in HEX_CHARS { HexMeans(c); }
  }

  /** A frame begins with "RISK", version 1, a zero flag byte and the header length 16. */
  lemma FrameBegins(j: Json, f: Frame)
    requires Encode(j, f).Some?
    ensures var b := Encode(j, f).value; |b| == 16 + |j.write(f.metadata)| + |f.payload| && b[..8] == [0x52, 0x49, 0x53, 0x4b, 1, 0, 0, 16]
  {
    var b := Encode(j, f).value;
    var n := |j.write(f.metadata)|;
    assert b[..8] == Header(0, n, |f.payload|)[..8];
    assert Put32(MAGIC) == [0x52, 0x49, 0x53, 0x4b] && Put16(HEADER_BYTES) == [0, 16];
  }
}
