/** `manifest.json` of the desktop backend: which manifests are valid, what is written, and that it reads back. */
module ManifestText {
  import opened Common

  /** A Unicode scalar value. */
  type Scalar = c: int | 0 <= c < 0xd800 || 0xe000 <= c < 0x11_0000
  type Text = seq<Scalar>

  datatype Manifest = Manifest(
    attachmentId: Text,
    filename: Text,
    mimeType: Text,
    size: nat,
    chunkSize: nat,
    chunkCount: nat,
    contentHash: Text,
    channelId: Option<Text>)

  const MAX_ATTACHMENT_BYTES := 20 * 1024 * 1024 * 1024
  const MAX_ATTACHMENT_CHUNK_BYTES := 256 * 1024
  const MAX_ATTACHMENT_CHUNKS := 1_000_000

  // ---- UTF-8 ----

  /** Section 3 of RFC 3629. */
  function Utf8Char(c: Scalar): (b: seq<Byte>)
    ensures 1 <= |b| <= 4
  {
    if c < 0x80 then [c]
    else if c < 0x800 then [0xc0 + c / 0x40, 0x80 + c % 0x40]
    else if c < 0x1_0000 then [0xe0 + c / 0x1000, 0x80 + c / 0x40 % 0x40, 0x80 + c % 0x40]
    else [0xf0 + c / 0x4_0000, 0x80 + c / 0x1000 % 0x40, 0x80 + c / 0x40 % 0x40, 0x80 + c % 0x40]
  }

  function Utf8(t: Text): seq<Byte> { if t == [] then [] else Utf8Char(t[0]) + Utf8(t[1..]) }

  /** How many bytes the sequence has that begins with `b`. */
  function Width(b: Byte): nat { if b < 0x80 then 1 else if b < 0xe0 then 2 else if b < 0xf0 then 3 else 4 }

  function Six(b: Byte): int { b as int - 0x80 }

  function CharOf(b: seq<Byte>): int
    requires 1 <= |b| <= 4
  {
    if |b| == 1 then b[0] as int
    else if |b| == 2 then (b[0] as int - 0xc0) * 0x40 + Six(b[1])
    else if |b| == 3 then (b[0] as int - 0xe0) * 0x1000 + Six(b[1]) * 0x40 + Six(b[2])
    else (b[0] as int - 0xf0) * 0x4_0000 + Six(b[1]) * 0x1000 + Six(b[2]) * 0x40 + Six(b[3])
  }

  /** Reads well-formed UTF-8. */
  function ReadUtf8(b: seq<Byte>): Option<seq<int>>
    decreases |b|
  {
    if b == [] then Some([])
    else if |b| < Width(b[0]) then None
    else
      var rest := ReadUtf8(b[Width(b[0])..]);
      if rest.None? then None else Some([CharOf(b[..Width(b[0])])] + rest.value)
  }

  lemma Utf8CharReads(c: Scalar)
    ensures Width(Utf8Char(c)[0]) == |Utf8Char(c)| && CharOf(Utf8Char(c)) == c
  {
    assert c == c / 0x40 * 0x40 + c % 0x40;
    assert c / 0x40 == c / 0x40 / 0x40 * 0x40 + c / 0x40 % 0x40 && c / 0x1000 == c / 0x40 / 0x40;
    assert c / 0x1000 == c / 0x1000 / 0x40 * 0x40 + c / 0x1000 % 0x40 && c / 0x4_0000 == c / 0x1000 / 0x40;
  }

  /** No encoding is longer than it need be. */
  lemma Utf8IsShortest(c: Scalar)
    ensures |Utf8Char(c)| == (if c <= 0x7f then 1 else if c <= 0x7ff then 2 else if c <= 0xffff then 3 else 4)
    ensures |Utf8Char(c)| > 1 ==> forall k | 1 <= k < |Utf8Char(c)| :: 0x80 <= Utf8Char(c)[k] <= 0xbf
  {
  }

  lemma {:induction false} Utf8Reads(t: Text)
    ensures ReadUtf8(Utf8(t)) == Some(t)
  {
    if t != [] {
      Utf8Reads(t[1..]);
      Utf8CharReads(t[0]);
      var first := Utf8Char(t[0]);
      assert Utf8(t)[..|first|] == first && Utf8(t)[|first|..] == Utf8(t[1..]) && Utf8(t)[0] == first[0];
      hide CharOf, Utf8Char, Width;
      assert t == [t[0]] + t[1..];
    }
  }

  lemma {:induction false} Utf8Append(a: Text, b: Text)
    ensures Utf8(a + b) == Utf8(a) + Utf8(b)
  {
    hide Utf8Char;
    if a == [] {
      assert a + b == b;
    } else {
      Utf8Append(a[1..], b);
      assert (a + b)[1..] == a[1..] + b;
    }
  }

  // ---- JSON ----

  const QUOTE: Scalar := 0x22
  const BACKSLASH: Scalar := 0x5c

  predicate IsAscii(s: string) { forall k | 0 <= k < |s| :: s[k] < 128 as char }

  function Ascii(s: string): Text
    requires IsAscii(s)
  {
    seq(|s|, k requires 0 <= k < |s| => s[k] as int)
  }

  const ATTACHMENT_ID: Text := Ascii("{\"attachmentId\":")
  const FILENAME: Text := Ascii(",\"filename\":")
  const MIME_TYPE: Text := Ascii(",\"mimeType\":")
  const SIZE: Text := Ascii(",\"size\":")
  const CHUNK_SIZE: Text := Ascii(",\"chunkSize\":")
  const CHUNK_COUNT: Text := Ascii(",\"chunkCount\":")
  const CONTENT_HASH: Text := Ascii(",\"contentHash\":")
  const CHANNEL_ID: Text := Ascii(",\"channelId\":")
  const CLOSE: Text := Ascii("}")
  const NULL: Text := Ascii("null")

  function HexDigit(d: nat): Scalar
    requires d < 16
  {
    if d < 10 then 0x30 + d else 0x61 + d - 10
  }

  /** The letter behind the backslash, for the characters that have one. */
  function Short(c: Scalar): Option<Scalar> {
    if c == QUOTE || c == BACKSLASH then Some(c)
    else if c == 0x08 then Some(0x62)
    else if c == 0x09 then Some(0x74)
    else if c == 0x0a then Some(0x6e)
    else if c == 0x0c then Some(0x66)
    else if c == 0x0d then Some(0x72)
    else None
  }

  /** One character of a JSON string as `serde_json` writes it. */
  function Escaped(c: Scalar): Text {
    if Short(c).Some? then [BACKSLASH, Short(c).value]
    else if c < 0x20 then [BACKSLASH, 0x75, 0x30, 0x30, HexDigit(c / 16), HexDigit(c % 16)]
    else [c]
  }

  function EscapedAll(t: Text): Text { if t == [] then [] else Escaped(t[0]) + EscapedAll(t[1..]) }

  function Quoted(t: Text): Text { [QUOTE] + EscapedAll(t) + [QUOTE] }

  function NumberText(n: nat): Text { if n < 10 then [0x30 + n] else NumberText(n / 10) + [0x30 + n % 10] }

  function Field(name: Text, value: Text, rest: Text): Text
  {
    name + value + rest
  }

  function ChannelText(id: Option<Text>): Text { if id.Some? then Quoted(id.value) else NULL }

  /** What `serde_json::to_vec` writes. */
  function Encoded(m: Manifest): Text {
    Field(ATTACHMENT_ID, Quoted(m.attachmentId),
    Field(FILENAME, Quoted(m.filename),
    Field(MIME_TYPE, Quoted(m.mimeType),
    Field(SIZE, NumberText(m.size),
    Field(CHUNK_SIZE, NumberText(m.chunkSize),
    Field(CHUNK_COUNT, NumberText(m.chunkCount),
    Field(CONTENT_HASH, Quoted(m.contentHash),
    Field(CHANNEL_ID, ChannelText(m.channelId), CLOSE))))))))
  }

  function EncodedLength(m: Manifest): nat { |Utf8(Encoded(m))| }

  // ---- Reading it back ----

  function HexValue(c: Scalar): Option<nat> {
    if 0x30 <= c <= 0x39 then Some(c - 0x30)
    else if 0x61 <= c <= 0x66 then Some(c - 0x61 + 10)
    else if 0x41 <= c <= 0x46 then Some(c - 0x41 + 10)
    else None
  }

  function Plain(letter: Scalar): Option<Scalar> {
    if letter == QUOTE || letter == BACKSLASH || letter == 0x2f then Some(letter)
    else if letter == 0x62 then Some(0x08)
    else if letter == 0x74 then Some(0x09)
    else if letter == 0x6e then Some(0x0a)
    else if letter == 0x66 then Some(0x0c)
    else if letter == 0x72 then Some(0x0d)
    else None
  }

  /** A character of a string behind its opening quote, and how much text it takes. */
  function ReadChar(u: Text): Option<(Scalar, nat)> {
    if u == [] || u[0] == QUOTE || u[0] < 0x20 then None
    else if u[0] != BACKSLASH then Some((u[0], 1))
    else if |u| < 2 then None
    else if u[1] != 0x75 then if Plain(u[1]).None? then None else Some((Plain(u[1]).value, 2))
    else if |u| < 6 then None
    else
      var a, b, c, d := HexValue(u[2]), HexValue(u[3]), HexValue(u[4]), HexValue(u[5]);
      if a.None? || b.None? || c.None? || d.None? then None
      else
        var v := a.value * 0x1000 + b.value * 0x100 + c.value * 0x10 + d.value;
        if 0xd800 <= v < 0xe000 || v >= 0x11_0000 then None else Some((v, 6))
  }

  /** The rest of a string and what follows its closing quote. */
  function ReadChars(u: Text): Option<(Text, Text)>
    decreases |u|
  {
    if u == [] then None
    else if u[0] == QUOTE then Some(([], u[1..]))
    else
      var c := ReadChar(u);
      if c.None? || c.value.1 == 0 || |u| < c.value.1 then None
      else
        var rest := ReadChars(u[c.value.1..]);
        if rest.None? then None else Some(([c.value.0] + rest.value.0, rest.value.1))
  }

  function ReadString(u: Text): Option<(Text, Text)> {
    if u == [] || u[0] != QUOTE then None else ReadChars(u[1..])
  }

  predicate IsDigit(c: Scalar) { 0x30 <= c <= 0x39 }

  function ReadDigits(u: Text, acc: nat): (nat, Text)
    decreases |u|
  {
    if u == [] || !IsDigit(u[0]) then (acc, u) else ReadDigits(u[1..], acc * 10 + (u[0] - 0x30))
  }

  function Behind(name: Text, u: Text): Option<Text> { if name <= u then Some(u[|name|..]) else None }

  lemma EscapedReads(c: Scalar, rest: Text)
    ensures ReadChar(Escaped(c) + rest) == Some((c, |Escaped(c)|))
    ensures (Escaped(c) + rest)[0] != QUOTE && (Escaped(c) + rest)[|Escaped(c)|..] == rest
  {
    var u := Escaped(c) + rest;
    assert u[..|Escaped(c)|] == Escaped(c);
    if c < 0x20 && Short(c).None? {
      assert u[2] == 0x30 && u[3] == 0x30 && u[4] == HexDigit(c / 16) && u[5] == HexDigit(c % 16);
    }
  }

  /** The characters that have a letter of their own, and the shape of the others. */
  lemma EscapesAre(c: Scalar)
    ensures Escaped(0x22) == [0x5c, 0x22] && Escaped(0x5c) == [0x5c, 0x5c] && Escaped(0x08) == [0x5c, 'b' as int] && Escaped(0x09) == [0x5c, 't' as int]
    ensures Escaped(0x0a) == [0x5c, 'n' as int] && Escaped(0x0c) == [0x5c, 'f' as int] && Escaped(0x0d) == [0x5c, 'r' as int]
    ensures c >= 0x20 && c != 0x22 && c != 0x5c ==> Escaped(c) == [c]
  {
  }

  lemma {:induction false} CharsRead(t: Text, rest: Text)
    ensures ReadChars(EscapedAll(t) + [QUOTE] + rest) == Some((t, rest))
    decreases |t|
  {
    var u := EscapedAll(t) + [QUOTE] + rest;
    if t == [] {
      assert u == [QUOTE] + rest;
    } else {
      var tail := EscapedAll(t[1..]) + [QUOTE] + rest;
      assert u == Escaped(t[0]) + tail;
      EscapedReads(t[0], tail);
      CharsRead(t[1..], rest);
      hide Escaped, ReadChar;
      assert t == [t[0]] + t[1..];
    }
  }

  lemma StringReads(t: Text, rest: Text)
    ensures ReadString(Quoted(t) + rest) == Some((t, rest))
  {
    CharsRead(t, rest);
    assert (Quoted(t) + rest)[1..] == EscapedAll(t) + [QUOTE] + rest;
  }

  lemma {:induction false} DigitsRead(n: nat, rest: Text)
    ensures ReadDigits(NumberText(n) + rest, 0) == ReadDigits(rest, n)
  {
    if n < 10 {
      assert ([0x30 + n] + rest)[1..] == rest;
    } else {
      var last: Text := [0x30 + n % 10];
      DigitsRead(n / 10, last + rest);
      assert NumberText(n) + rest == NumberText(n / 10) + (last + rest);
      assert (last + rest)[1..] == rest;
    }
  }

  lemma {:induction false} NumberReads(n: nat, rest: Text)
    requires rest != [] && !IsDigit(rest[0])
    ensures NumberText(n) != [] && IsDigit((NumberText(n) + rest)[0]) && ReadDigits(NumberText(n) + rest, 0) == (n, rest)
  {
    DigitsRead(n, rest);
    NumberStarts(n);
  }

  lemma {:induction false} NumberStarts(n: nat)
    ensures NumberText(n) != [] && IsDigit(NumberText(n)[0])
  {
    if n >= 10 { NumberStarts(n / 10); }
  }

  lemma FieldReads(name: Text, value: Text, rest: Text)
    ensures Behind(name, Field(name, value, rest)) == Some(value + rest)
  {
    var u := Field(name, value, rest);
    assert u == name + (value + rest);
  }

  function ReadStringField(name: Text, u: Text): Option<(Text, Text)>
  {
    var v := Behind(name, u);
    if v.None? then None else ReadString(v.value)
  }

  function ReadNumberField(name: Text, u: Text): Option<(nat, Text)>
  {
    var v := Behind(name, u);
    if v.None? || v.value == [] || !IsDigit(v.value[0]) then None else Some(ReadDigits(v.value, 0))
  }

  function ReadChannelField(name: Text, u: Text): Option<(Option<Text>, Text)>
  {
    var v := Behind(name, u);
    if v.None? then None
    else if Behind(NULL, v.value).Some? then Some((None, Behind(NULL, v.value).value))
    else
      var s := ReadString(v.value);
      if s.None? then None else Some((Some(s.value.0), s.value.1))
  }

  /** Reads a manifest in the order and spelling in which it is written. */
  function ReadManifest(u: Text): Option<Manifest> {
    var a := ReadStringField(ATTACHMENT_ID, u);
    if a.None? then None else
    var f := ReadStringField(FILENAME, a.value.1);
    if f.None? then None else
    var t := ReadStringField(MIME_TYPE, f.value.1);
    if t.None? then None else
    var s := ReadNumberField(SIZE, t.value.1);
    if s.None? then None else
    var g := ReadNumberField(CHUNK_SIZE, s.value.1);
    if g.None? then None else
    var n := ReadNumberField(CHUNK_COUNT, g.value.1);
    if n.None? then None else
    var h := ReadStringField(CONTENT_HASH, n.value.1);
    if h.None? then None else
    var c := ReadChannelField(CHANNEL_ID, h.value.1);
    if c.None? || c.value.1 != CLOSE then None
    else Some(Manifest(a.value.0, f.value.0, t.value.0, s.value.0, g.value.0, n.value.0, h.value.0, c.value.0))
  }

  lemma StringFieldReads(name: Text, t: Text, rest: Text)
    ensures ReadStringField(name, Field(name, Quoted(t), rest)) == Some((t, rest))
  {
    FieldReads(name, Quoted(t), rest);
    StringReads(t, rest);
  }

  lemma NumberFieldReads(name: Text, n: nat, rest: Text)
    requires rest != [] && !IsDigit(rest[0])
    ensures ReadNumberField(name, Field(name, NumberText(n), rest)) == Some((n, rest))
  {
    FieldReads(name, NumberText(n), rest);
    NumberReads(n, rest);
  }

  lemma ChannelFieldReads(name: Text, id: Option<Text>, rest: Text)
    ensures ReadChannelField(name, Field(name, ChannelText(id), rest)) == Some((id, rest))
  {
    FieldReads(name, ChannelText(id), rest);
    if id.Some? {
      StringReads(id.value, rest);
      assert (Quoted(id.value) + rest)[0] != NULL[0];
    } else {
      assert (NULL + rest)[4..] == rest;
    }
  }

  lemma FieldBegins(name: Text, value: Text, rest: Text)
    requires |name| > 0
    ensures Field(name, value, rest) != [] && Field(name, value, rest)[0] == name[0]
  {
  }

  lemma NamesBegin()
    ensures |CHUNK_SIZE| > 0 && |CHUNK_COUNT| > 0 && |CONTENT_HASH| > 0
    ensures CHUNK_SIZE[0] == CHUNK_COUNT[0] == CONTENT_HASH[0] == 0x2c
  {
  }

  /** Every manifest that is written reads back as it was, whatever characters its texts hold. */
  lemma ManifestReads(m: Manifest)
    ensures ReadManifest(Encoded(m)) == Some(m)
  {
    NamesBegin();
    hide Ascii;
    var r8 := CLOSE;
    var r7 := Field(CHANNEL_ID, ChannelText(m.channelId), r8);
    var r6 := Field(CONTENT_HASH, Quoted(m.contentHash), r7);
    var r5 := Field(CHUNK_COUNT, NumberText(m.chunkCount), r6);
    var r4 := Field(CHUNK_SIZE, NumberText(m.chunkSize), r5);
    var r3 := Field(SIZE, NumberText(m.size), r4);
    var r2 := Field(MIME_TYPE, Quoted(m.mimeType), r3);
    var r1 := Field(FILENAME, Quoted(m.filename), r2);
    FieldBegins(CONTENT_HASH, Quoted(m.contentHash), r7);
    FieldBegins(CHUNK_COUNT, NumberText(m.chunkCount), r6);
    FieldBegins(CHUNK_SIZE, NumberText(m.chunkSize), r5);
    hide Field, Quoted, NumberText, ChannelText, ReadStringField, ReadNumberField, ReadChannelField;
    StringFieldReads(ATTACHMENT_ID, m.attachmentId, r1);
    StringFieldReads(FILENAME, m.filename, r2);
    StringFieldReads(MIME_TYPE, m.mimeType, r3);
    NumberFieldReads(SIZE, m.size, r4);
    NumberFieldReads(CHUNK_SIZE, m.chunkSize, r5);
    NumberFieldReads(CHUNK_COUNT, m.chunkCount, r6);
    StringFieldReads(CONTENT_HASH, m.contentHash, r7);
    ChannelFieldReads(CHANNEL_ID, m.channelId, r8);
  }

  /** And so do its bytes. */
  lemma {:induction false} ManifestBytesRead(m: Manifest)
    ensures ReadUtf8(Utf8(Encoded(m))) == Some(Encoded(m)) && ReadManifest(Encoded(m)) == Some(m)
  {
    Utf8Reads(Encoded(m));
    ManifestReads(m);
  }

  // ---- Which manifests are valid ----

  predicate IsHexChar(c: Scalar) { 0x30 <= c <= 0x39 || 0x41 <= c <= 0x46 || 0x61 <= c <= 0x66 }

  predicate IsSha256(t: Text) { |t| == 64 && forall k | 0 <= k < 64 :: IsHexChar(t[k]) }

  function SmallLetter(c: Scalar): Scalar { if 0x41 <= c <= 0x5a then c + 0x20 else c }

  /** The White_Space property of Unicode, which `trim` goes by. */
  predicate IsSpace(c: Scalar) {
    || 0x09 <= c <= 0x0d || c == 0x20 || c == 0x85 || c == 0xa0 || c == 0x1680 || 0x2000 <= c <= 0x200a
    || c == 0x2028 || c == 0x2029 || c == 0x202f || c == 0x205f || c == 0x3000
  }

  predicate IsIdChar(c: Scalar) { 0x30 <= c <= 0x39 || 0x41 <= c <= 0x5a || 0x61 <= c <= 0x7a || c == 0x2d || c == 0x5f }

  predicate IsTransferId(t: Text) { 8 <= |t| <= 128 && forall k | 0 <= k < |t| :: IsIdChar(t[k]) }

  function DivCeil(a: nat, b: nat): nat
    requires b > 0
  {
    a / b + if a % b == 0 then 0 else 1
  }

  /** `validate_manifest`. */
  predicate ValidManifest(m: Manifest) {
    && IsSha256(m.attachmentId) && IsSha256(m.contentHash)
    && (forall k | 0 <= k < 64 :: SmallLetter(m.attachmentId[k]) == SmallLetter(m.contentHash[k]))
    && (exists k :: 0 <= k < |m.filename| && !IsSpace(m.filename[k])) && |m.filename| <= 255
    && |Utf8(m.mimeType)| <= 127
    && m.size <= MAX_ATTACHMENT_BYTES && 0 < m.chunkSize <= MAX_ATTACHMENT_CHUNK_BYTES
    && m.chunkCount <= MAX_ATTACHMENT_CHUNKS && m.chunkCount == DivCeil(m.size, m.chunkSize)
    && (m.channelId.Some? ==> IsTransferId(m.channelId.value))
  }

  // ---- The same in other words ----

  const HEX_CHARS: Text := Ascii("0123456789ABCDEFabcdef")
  const DIGITS: Text := Ascii("0123456789")
  const BIG: Text := Ascii("ABCDEFGHIJKLMNOPQRSTUVWXYZ")
  const SMALL: Text := Ascii("abcdefghijklmnopqrstuvwxyz")
  const ID_CHARS: Text := DIGITS + BIG + SMALL + Ascii("-_")
  const SPACES: Text := [
    0x09, 0x0a, 0x0b, 0x0c, 0x0d, 0x20, 0x85, 0xa0, 0x1680, 0x2000, 0x2001, 0x2002, 0x2003, 0x2004, 0x2005, 0x2006, 0x2007,
    0x2008, 0x2009, 0x200a, 0x2028, 0x2029, 0x202f, 0x205f, 0x3000]

  /** All characters from `lo` to `hi`. */
  function Range(lo: nat, hi: nat): Text
    requires hi < 0xd800
  {
    seq(if lo <= hi then hi - lo + 1 else 0, k => lo + k)
  }

  lemma RangeHas(lo: nat, hi: nat, c: Scalar)
    requires lo <= hi < 0xd800
    ensures c in Range(lo, hi) <==> lo <= c <= hi
  {
    if lo <= c <= hi { assert Range(lo, hi)[c - lo] == c; }
  }

  lemma ValidCharacters(c: Scalar)
    ensures IsHexChar(c) <==> c in HEX_CHARS
    ensures IsIdChar(c) <==> c in ID_CHARS
    ensures IsSpace(c) <==> c in SPACES
  {
    HexChars(c);
    IdChars(c);
    Spaces(c);
  }

  lemma HexChars(c: Scalar)
    ensures IsHexChar(c) <==> c in HEX_CHARS
  {
    assert HEX_CHARS == Range(0x30, 0x39) + Range(0x41, 0x46) + Range(0x61, 0x66);
    RangeHas(0x30, 0x39, c);
    RangeHas(0x41, 0x46, c);
    RangeHas(0x61, 0x66, c);
    hide Range;
  }

  lemma IdChars(c: Scalar)
    ensures IsIdChar(c) <==> c in ID_CHARS
  {
    assert DIGITS == Range(0x30, 0x39) && BIG == Range(0x41, 0x5a) && SMALL == Range(0x61, 0x7a) && Ascii("-_") == [0x2d, 0x5f];
    RangeHas(0x30, 0x39, c);
    RangeHas(0x41, 0x5a, c);
    RangeHas(0x61, 0x7a, c);
    hide Range;
  }

  lemma Spaces(c: Scalar)
    ensures IsSpace(c) <==> c in SPACES
  {
    assert SPACES == Range(0x09, 0x0d) + [0x20, 0x85, 0xa0, 0x1680] + Range(0x2000, 0x200a) + [0x2028, 0x2029, 0x202f, 0x205f, 0x3000];
    RangeHas(0x09, 0x0d, c);
    RangeHas(0x2000, 0x200a, c);
    hide Range;
  }

  /** The announced number of chunks is the least that holds the file. */
  lemma {:induction false} ChunkCountMeans(m: Manifest)
    requires ValidManifest(m)
    ensures m.size <= m.chunkCount * m.chunkSize
    ensures m.size > (m.chunkCount - 1) * m.chunkSize || m.size == m.chunkCount == 0
  {
    var q, r := m.size / m.chunkSize, m.size % m.chunkSize;
    assert m.size == q * m.chunkSize + r;
    if r != 0 { assert m.chunkCount * m.chunkSize == q * m.chunkSize + m.chunkSize; }
    if r == 0 && q > 0 { assert (q - 1) * m.chunkSize == q * m.chunkSize - m.chunkSize; }
    hide IsSha256, IsTransferId, Utf8;
  }

  /** A letter and its small form, spelled out. */
  lemma SmallLetterMeans(c: Scalar)
    ensures c !in BIG ==> SmallLetter(c) == c
    ensures forall k | 0 <= k < |BIG| :: SmallLetter(BIG[k]) == SMALL[k]
  {
    assert BIG == Range(0x41, 0x5a) && SMALL == Range(0x61, 0x7a);
    RangeHas(0x41, 0x5a, c);
  }

  /** What makes a manifest valid, with the limits in plain numbers. */
  lemma ValidManifestMeans(m: Manifest)
    ensures ValidManifest(m) <==>
      && |m.attachmentId| == |m.contentHash| == 64
      && (forall c | c in m.attachmentId || c in m.contentHash :: c in HEX_CHARS)
      && (forall k | 0 <= k < 64 :: SmallLetter(m.attachmentId[k]) == SmallLetter(m.contentHash[k]))
      && (exists c :: c in m.filename && c !in SPACES) && |m.filename| <= 255 && |Utf8(m.mimeType)| <= 127
      && m.size <= 21474836480 && 1 <= m.chunkSize <= 262144 && m.chunkCount <= 1000000 && m.chunkCount == DivCeil(m.size, m.chunkSize)
      && (m.channelId.Some? ==> 8 <= |m.channelId.value| <= 128 && forall c | c in m.channelId.value :: c in ID_CHARS)
  {
    forall c ensures (IsHexChar(c) <==> c in HEX_CHARS) && (IsIdChar(c) <==> c in ID_CHARS) && (IsSpace(c) <==> c in SPACES) { ValidCharacters(c); }
    hide IsHexChar, IsIdChar, IsSpace, Utf8, DivCeil, SmallLetter, Ascii;
  }

  // ---- How long it can be ----

  lemma {:induction false} Utf8Bound(t: Text)
    ensures |t| <= |Utf8(t)| <= 4 * |t|
  {
    if t != [] { Utf8Bound(t[1..]); }
  }

  /** Escaping and encoding take at most six bytes for a character. */
  lemma EscapedBound(c: Scalar)
    ensures |Utf8(Escaped(c))| <= 6
  {
    var e := Escaped(c);
    if |e| == 1 {
      Utf8Bound(e);
    } else {
      AsciiLength(e);
    }
  }

  lemma {:induction false} AsciiLength(t: Text)
    requires forall k | 0 <= k < |t| :: t[k] < 0x80
    ensures |Utf8(t)| == |t|
  {
    if t != [] { AsciiLength(t[1..]); }
  }

  lemma {:induction false} EscapedAllBound(t: Text)
    ensures |Utf8(EscapedAll(t))| <= 6 * |t|
  {
    if t != [] {
      EscapedAllBound(t[1..]);
      EscapedBound(t[0]);
      Utf8Append(Escaped(t[0]), EscapedAll(t[1..]));
      hide Utf8, Escaped;
    }
  }

  lemma QuotedBound(t: Text)
    ensures |Utf8(Quoted(t))| <= 6 * |t| + 2
  {
    EscapedAllBound(t);
    Utf8Append([QUOTE] + EscapedAll(t), [QUOTE]);
    Utf8Append([QUOTE], EscapedAll(t));
    AsciiLength([QUOTE]);
    hide Utf8, EscapedAll;
  }

  function Power10(k: nat): nat { if k == 0 then 1 else 10 * Power10(k - 1) }

  lemma {:induction false} NumberBound(n: nat, k: nat)
    requires k > 0 && n < Power10(k)
    ensures |NumberText(n)| <= k && forall i | 0 <= i < |NumberText(n)| :: IsDigit(NumberText(n)[i])
    decreases k
  {
    if n >= 10 {
      assert k > 1 by { assert Power10(1) == 10; }
      NumberBound(n / 10, k - 1);
    }
  }

  lemma SmallNumber(n: nat)
    requires n < 1_000_000_000_000
    ensures |Utf8(NumberText(n))| <= 12
  {
    assert Power10(3) == 1000 && Power10(6) == 1_000_000 && Power10(9) == 1_000_000_000 && Power10(12) == 1_000_000_000_000;
    NumberBound(n, 12);
    AsciiLength(NumberText(n));
  }

  lemma FieldLength(name: Text, value: Text, rest: Text)
    ensures |Utf8(Field(name, value, rest))| == |Utf8(name)| + |Utf8(value)| + |Utf8(rest)|
  {
    Utf8Append(name + value, rest);
    Utf8Append(name, value);
    hide Utf8;
  }

  /** The names take no more than this in all. */
  lemma NamesAreShort()
    ensures |Utf8(ATTACHMENT_ID)| <= 64 && |Utf8(FILENAME)| <= 64 && |Utf8(MIME_TYPE)| <= 64 && |Utf8(SIZE)| <= 64
    ensures |Utf8(CHUNK_SIZE)| <= 64 && |Utf8(CHUNK_COUNT)| <= 64 && |Utf8(CONTENT_HASH)| <= 64 && |Utf8(CHANNEL_ID)| <= 64
    ensures |Utf8(CLOSE)| <= 4 && |Utf8(NULL)| <= 16
  {
    hide Utf8;
    Utf8Bound(ATTACHMENT_ID);
    Utf8Bound(FILENAME);
    Utf8Bound(MIME_TYPE);
    Utf8Bound(SIZE);
    Utf8Bound(CHUNK_SIZE);
    Utf8Bound(CHUNK_COUNT);
    Utf8Bound(CONTENT_HASH);
    Utf8Bound(CHANNEL_ID);
    Utf8Bound(CLOSE);
    Utf8Bound(NULL);
  }

  /** The bytes of a valid manifest, field by field. */
  lemma ValidManifestIsShort(m: Manifest)
    requires ValidManifest(m)
    ensures EncodedLength(m) < 5000
  {
    QuotedBound(m.attachmentId);
    QuotedBound(m.filename);
    QuotedBound(m.mimeType);
    Utf8Bound(m.mimeType);
    QuotedBound(m.contentHash);
    if m.channelId.Some? { QuotedBound(m.channelId.value); }
    SmallNumber(m.size);
    SmallNumber(m.chunkSize);
    SmallNumber(m.chunkCount);
    NamesAreShort();
    var r8 := CLOSE;
    hide Utf8, Quoted, NumberText, Field, Ascii;
    var r7 := Field(CHANNEL_ID, ChannelText(m.channelId), r8);
    var r6 := Field(CONTENT_HASH, Quoted(m.contentHash), r7);
    var r5 := Field(CHUNK_COUNT, NumberText(m.chunkCount), r6);
    var r4 := Field(CHUNK_SIZE, NumberText(m.chunkSize), r5);
    var r3 := Field(SIZE, NumberText(m.size), r4);
    var r2 := Field(MIME_TYPE, Quoted(m.mimeType), r3);
    var r1 := Field(FILENAME, Quoted(m.filename), r2);
    FieldLength(CHANNEL_ID, ChannelText(m.channelId), r8);
    FieldLength(CONTENT_HASH, Quoted(m.contentHash), r7);
    FieldLength(CHUNK_COUNT, NumberText(m.chunkCount), r6);
    FieldLength(CHUNK_SIZE, NumberText(m.chunkSize), r5);
    FieldLength(SIZE, NumberText(m.size), r4);
    FieldLength(MIME_TYPE, Quoted(m.mimeType), r3);
    FieldLength(FILENAME, Quoted(m.filename), r2);
    FieldLength(ATTACHMENT_ID, Quoted(m.attachmentId), r1);
  }
}
