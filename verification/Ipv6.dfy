/** `normalizeIpv6`, against the text forms of section 2.2 of RFC 4291. */
module Ipv6 {
  import opened Common

  // ---- Strings ----

  function LowerChar(c: char): char { if 'A' <= c <= 'Z' then c - 'A' + 'a' else c }

  function Lower(s: string): string { seq(|s|, i requires 0 <= i < |s| => LowerChar(s[i])) }

  /** The part before the zone. */
  function WithoutZone(s: string): string { if s == [] || s[0] == '%' then [] else [s[0]] + WithoutZone(s[1..]) }

  /** `split(":")`: always at least one piece. */
  function Split(s: string): (pieces: seq<string>)
    ensures |pieces| > 0
  {
    if s == [] then [[]]
    else if s[0] == ':' then [[]] + Split(s[1..])
    else var rest := Split(s[1..]); [[s[0]] + rest[0]] + rest[1..]
  }

  /** `split("::")`. */
  function SplitDouble(s: string): (pieces: seq<string>)
    ensures |pieces| > 0
  {
    if s == [] then [[]]
    else if |s| > 1 && s[0] == ':' && s[1] == ':' then [[]] + SplitDouble(s[2..])
    else var rest := SplitDouble(s[1..]); [[s[0]] + rest[0]] + rest[1..]
  }

  function Join(pieces: seq<string>): string {
    if |pieces| == 0 then [] else if |pieces| == 1 then pieces[0] else pieces[0] + ":" + Join(pieces[1..])
  }

  // ---- Hexadecimal groups ----

  predicate IsHex(c: char) { '0' <= c <= '9' || 'a' <= c <= 'f' }

  predicate IsGroup(s: string) { 1 <= |s| <= 4 && forall k | 0 <= k < |s| :: IsHex(s[k]) }

  function Digit(c: char): nat
    requires IsHex(c)
  {
    if c <= '9' then (c - '0') as int else (c - 'a') as int + 10
  }

  /** `parseInt(group, 16)`. */
  function Value(s: string): nat
    requires forall k | 0 <= k < |s| :: IsHex(s[k])
  {
    if s == [] then 0 else Value(s[..|s| - 1]) * 16 + Digit(s[|s| - 1])
  }

  function DigitChar(d: nat): char
    requires d < 16
  {
    if d < 10 then '0' + d as char else 'a' + (d - 10) as char
  }

  /** `toString(16)`. */
  function HexText(n: nat): string {
    if n < 16 then [DigitChar(n)] else HexText(n / 16) + [DigitChar(n % 16)]
  }

  // ---- The function ----

  predicate AllGroups(pieces: seq<string>) { forall k | 0 <= k < |pieces| :: IsGroup(pieces[k]) }

  function Values(pieces: seq<string>): (v: seq<nat>)
    requires AllGroups(pieces)
    ensures |v| == |pieces|
  {
    seq(|pieces|, k requires 0 <= k < |pieces| => Value(pieces[k]))
  }

  function ZeroGroups(n: nat): seq<nat> { seq(n, _ => 0) }

  function Texts(groups: seq<nat>): seq<string> { seq(|groups|, k requires 0 <= k < |groups| => HexText(groups[k])) }

  /** All eight groups written out. */
  function Canonical(groups: seq<nat>): string { Join(Texts(groups)) }

  function Pieces(s: string): seq<string> { if s == [] then [] else Split(s) }

  /** `normalizeIpv6` once the zone is dropped and the letters are small. */
  function NormalizeText(text: string): Option<string> {
    var pieces := SplitDouble(text);
    if |pieces| > 2 then None
    else
      var left, right := Pieces(pieces[0]), if |pieces| == 2 then Pieces(pieces[1]) else [];
      if |pieces| == 1 && |left| != 8 then None
      else
        var missing := 8 - |left| - |right|;
        if missing < 0 || (|pieces| == 2 && missing < 1) then None
        else
          var groups := left + seq(missing, _ => "0") + right;
          if !AllGroups(groups) then None else Some(Join(Texts(Values(groups))))
  }

  function Normalize(value: string): Option<string> { NormalizeText(Lower(WithoutZone(value))) }

  // ---- The reference grammar ----

  /** Form 1: eight groups. */
  ghost predicate IsFull(text: string, groups: seq<nat>, parts: seq<string>) {
    |parts| == 8 && AllGroups(parts) && text == Join(parts) && groups == Values(parts)
  }

  /** Form 2: one "::" stands for one or more groups of zeros. */
  ghost predicate IsCompressed(text: string, groups: seq<nat>, left: seq<string>, right: seq<string>) {
    && |left| + |right| <= 7 && AllGroups(left) && AllGroups(right)
    && text == Join(left) + "::" + Join(right)
    && groups == Values(left) + ZeroGroups(8 - |left| - |right|) + Values(right)
  }

  /** `text`, in lower case and without a zone, denotes the eight groups. */
  ghost predicate Denotes(text: string, groups: seq<nat>) {
    || (exists parts :: IsFull(text, groups, parts))
    || (exists left, right :: IsCompressed(text, groups, left, right))
  }

  // ---- Splitting and joining ----

  predicate NoColon(s: string) { forall k | 0 <= k < |s| :: s[k] != ':' }

  predicate NoDouble(s: string) { forall k | 0 <= k < |s| - 1 :: !(s[k] == ':' && s[k + 1] == ':') }

  lemma {:induction false} JoinSplit(s: string)
    ensures Join(Split(s)) == s
    ensures s != [] ==> Pieces(s) == Split(s) && Join(Pieces(s)) == s
  {
    if s != [] {
      JoinSplit(s[1..]);
      var rest := Split(s[1..]);
      if s[0] == ':' {
        assert Split(s)[1..] == rest;
      } else {
        assert Split(s)[1..] == rest[1..];
        assert |rest| > 1 ==> Join(rest) == rest[0] + ":" + Join(rest[1..]);
      }
      assert s == [s[0]] + s[1..];
    }
  }

  lemma {:induction false} SplitPiece(p: string, rest: string)
    requires NoColon(p)
    ensures Split(p) == [p]
    ensures Split(p + ":" + rest) == [p] + Split(rest)
    decreases |p|
  {
    if p == [] {
      assert p + ":" + rest == ":" + rest;
      assert (":" + rest)[1..] == rest;
    } else {
      SplitPiece(p[1..], rest);
      assert (p + ":" + rest)[1..] == p[1..] + ":" + rest;
      assert p == [p[0]] + p[1..];
    }
  }

  lemma {:induction false} SplitJoin(pieces: seq<string>)
    requires |pieces| > 0 && forall k | 0 <= k < |pieces| :: NoColon(pieces[k])
    ensures Split(Join(pieces)) == pieces
    decreases |pieces|
  {
    if |pieces| == 1 {
      SplitPiece(pieces[0], []);
    } else {
      SplitJoin(pieces[1..]);
      SplitPiece(pieces[0], Join(pieces[1..]));
      assert pieces == [pieces[0]] + pieces[1..];
    }
  }

  lemma {:induction false} DoubleParts(s: string)
    ensures |SplitDouble(s)| == 1 ==> SplitDouble(s) == [s]
    ensures |SplitDouble(s)| == 2 ==> s == SplitDouble(s)[0] + "::" + SplitDouble(s)[1]
    decreases |s|
  {
    if s != [] {
      if |s| > 1 && s[0] == ':' && s[1] == ':' {
        DoubleParts(s[2..]);
        assert s == "::" + s[2..];
      } else {
        DoubleParts(s[1..]);
        assert s == [s[0]] + s[1..];
      }
    }
  }

  lemma {:induction false} NoDoubleIsWhole(s: string)
    requires NoDouble(s)
    ensures SplitDouble(s) == [s]
    decreases |s|
  {
    if s != [] {
      NoDoubleIsWhole(s[1..]);
      assert s == [s[0]] + s[1..];
    }
  }

  /** The first "::" of l::r is the one written, if l has none and does not end in a colon. */
  lemma {:induction false} DoubleSplits(l: string, r: string)
    requires NoDouble(l) && NoDouble(r) && (l != [] ==> l[|l| - 1] != ':') && (r != [] ==> r[0] != ':')
    ensures SplitDouble(l + "::" + r) == [l, r]
    decreases |l|
  {
    var s := l + "::" + r;
    if l == [] {
      assert s[2..] == r;
      NoDoubleIsWhole(r);
    } else {
      DoubleSplits(l[1..], r);
      assert s[1..] == l[1..] + "::" + r;
      assert l == [l[0]] + l[1..];
      assert |l| > 1 ==> s[1] == l[1];
    }
  }

  lemma {:induction false} JoinIsClean(parts: seq<string>)
    requires AllGroups(parts) && |parts| > 0
    ensures var s := Join(parts); |s| > 0 && NoDouble(s) && s[0] != ':' && s[|s| - 1] != ':'
    decreases |parts|
  {
    if |parts| > 1 {
      var tail := Join(parts[1..]);
      JoinIsClean(parts[1..]);
      var s := parts[0] + ":" + tail;
      forall k | 0 <= k < |s| - 1 ensures !(s[k] == ':' && s[k + 1] == ':') {
        if k > |parts[0]| { assert s[k] == tail[k - |parts[0]| - 1] && s[k + 1] == tail[k - |parts[0]|]; }
      }
    }
  }

  // ---- Numbers ----

  function Power16(k: nat): nat { if k == 0 then 1 else 16 * Power16(k - 1) }

  lemma {:induction false} ValueFits(s: string)
    requires forall k | 0 <= k < |s| :: IsHex(s[k])
    ensures Value(s) < Power16(|s|)
  {
    if s != [] { ValueFits(s[..|s| - 1]); }
  }

  lemma GroupFits(s: string)
    requires IsGroup(s)
    ensures Value(s) < 0x1_0000
  {
    ValueFits(s);
    assert Power16(1) == 16 && Power16(2) == 256 && Power16(3) == 4096 && Power16(4) == 65536;
  }

  lemma {:induction false} HexTextReads(n: nat, k: nat)
    requires k > 0 && n < Power16(k)
    ensures 1 <= |HexText(n)| <= k && (forall i | 0 <= i < |HexText(n)| :: IsHex(HexText(n)[i])) && Value(HexText(n)) == n
    decreases k
  {
    if n < 16 {
      assert HexText(n)[..0] == [];
    } else {
      assert k > 1 by { assert Power16(1) == 16; }
      HexTextReads(n / 16, k - 1);
      var front := HexText(n / 16);
      assert HexText(n)[..|front|] == front;
    }
  }

  lemma HexTextIsGroup(n: nat)
    requires n < 0x1_0000
    ensures IsGroup(HexText(n)) && Value(HexText(n)) == n
  {
    assert Power16(1) == 16 && Power16(2) == 256 && Power16(3) == 4096 && Power16(4) == 65536;
    HexTextReads(n, 4);
  }

  predicate IsAddress(groups: seq<nat>) { |groups| == 8 && forall k | 0 <= k < 8 :: groups[k] < 0x1_0000 }

  lemma TextsRead(groups: seq<nat>)
    requires IsAddress(groups)
    ensures AllGroups(Texts(groups)) && Values(Texts(groups)) == groups
  {
    forall k | 0 <= k < 8 ensures IsGroup(Texts(groups)[k]) && Value(Texts(groups)[k]) == groups[k] { HexTextIsGroup(groups[k]); }
  }

  lemma ValuesFit(parts: seq<string>)
    requires AllGroups(parts)
    ensures forall k | 0 <= k < |parts| :: Values(parts)[k] < 0x1_0000
  {
    forall k | 0 <= k < |parts| ensures Value(parts[k]) < 0x1_0000 { GroupFits(parts[k]); }
  }

  lemma CompressedIsAddress(text: string, groups: seq<nat>, left: seq<string>, right: seq<string>)
    requires IsCompressed(text, groups, left, right)
    ensures IsAddress(groups)
  {
    ValuesFit(left);
    ValuesFit(right);
    hide Values, AllGroups, Join;
    var gap := 8 - |right|;
    assert forall k | 0 <= k < |left| :: groups[k] == Values(left)[k];
    assert forall k | |left| <= k < gap :: groups[k] == 0;
    assert forall k | gap <= k < 8 :: groups[k] == Values(right)[k - gap];
  }

  lemma DenotedIsAddress(text: string, groups: seq<nat>)
    requires Denotes(text, groups)
    ensures IsAddress(groups)
  {
    hide Values, AllGroups, IsCompressed;
    if parts :| IsFull(text, groups, parts) {
      ValuesFit(parts);
    } else {
      var left, right :| IsCompressed(text, groups, left, right);
      CompressedIsAddress(text, groups, left, right);
    }
  }

  // ---- Acceptance ----

  lemma GroupsHaveNoColon(parts: seq<string>)
    requires AllGroups(parts)
    ensures forall k | 0 <= k < |parts| :: NoColon(parts[k])
  {
  }

  lemma PiecesOfJoin(parts: seq<string>)
    requires AllGroups(parts)
    ensures Pieces(Join(parts)) == parts
  {
    if |parts| > 0 {
      JoinIsClean(parts);
      GroupsHaveNoColon(parts);
      SplitJoin(parts);
    }
  }

  lemma PadValues(left: seq<string>, right: seq<string>, missing: nat)
    requires AllGroups(left) && AllGroups(right)
    ensures var groups := left + seq(missing, _ => "0") + right;
      AllGroups(groups) && Values(groups) == Values(left) + ZeroGroups(missing) + Values(right)
  {
    var groups := left + seq(missing, _ => "0") + right;
    assert IsGroup("0") && Value("0") == 0 by { assert "0"[..0] == []; }
    hide Value;
    assert forall k | |left| <= k < |left| + missing :: groups[k] == "0";
    assert forall k | |left| + missing <= k < |groups| :: groups[k] == right[k - |left| - missing];
    assert forall k | 0 <= k < |left| :: groups[k] == left[k];
  }

  lemma FullIsAccepted(text: string, groups: seq<nat>, parts: seq<string>)
    requires IsFull(text, groups, parts)
    ensures NormalizeText(text) == Some(Canonical(groups))
  {
    JoinIsClean(parts);
    NoDoubleIsWhole(text);
    PiecesOfJoin(parts);
    PadValues(parts, [], 0);
    hide Pieces, SplitDouble, Value, HexText, Join;
    assert parts + seq(0, _ => "0") + [] == parts;
  }

  lemma PiecesAreAccepted(text: string, l: string, r: string)
    requires SplitDouble(text) == [l, r] && |Pieces(l)| + |Pieces(r)| <= 7 && AllGroups(Pieces(l)) && AllGroups(Pieces(r))
    ensures var missing := 8 - |Pieces(l)| - |Pieces(r)|;
      NormalizeText(text) == Some(Canonical(Values(Pieces(l)) + ZeroGroups(missing) + Values(Pieces(r))))
  {
    PadValues(Pieces(l), Pieces(r), 8 - |Pieces(l)| - |Pieces(r)|);
    hide Pieces, SplitDouble, Join, Texts, Values, AllGroups, ZeroGroups;
  }

  lemma CompressedIsAccepted(text: string, groups: seq<nat>, left: seq<string>, right: seq<string>)
    requires IsCompressed(text, groups, left, right)
    ensures NormalizeText(text) == Some(Canonical(groups))
  {
    if left != [] { JoinIsClean(left); }
    if right != [] { JoinIsClean(right); }
    DoubleSplits(Join(left), Join(right));
    hide Pieces, SplitDouble, Join, AllGroups, Values, ZeroGroups, NormalizeText, Canonical;
    PiecesOfJoin(left);
    PiecesOfJoin(right);
    PiecesAreAccepted(text, Join(left), Join(right));
  }

  lemma JoinPieces(s: string)
    ensures Join(Pieces(s)) == s
  {
    JoinSplit(s);
  }

  lemma GroupsOfParts(left: seq<string>, middle: seq<string>, right: seq<string>)
    requires AllGroups(left + middle + right)
    ensures AllGroups(left) && AllGroups(right)
  {
    var groups := left + middle + right;
    assert forall k | 0 <= k < |left| :: left[k] == groups[k];
    assert forall k | 0 <= k < |right| :: right[k] == groups[|left| + |middle| + k];
  }

  lemma AcceptedIsDenoted(text: string)
    requires NormalizeText(text).Some?
    ensures exists groups :: Denotes(text, groups)
  {
    var pieces := SplitDouble(text);
    DoubleParts(text);
    JoinPieces(pieces[0]);
    var left := Pieces(pieces[0]);
    hide Pieces, Join, SplitDouble, Value, HexText, IsGroup;
    if |pieces| == 1 {
      GroupsOfParts(left, seq(0, _ => "0"), []);
      assert IsFull(text, Values(left), left);
      assert Denotes(text, Values(left));
    } else {
      JoinPieces(pieces[1]);
      var right := Pieces(pieces[1]);
      var missing := 8 - |left| - |right|;
      GroupsOfParts(left, seq(missing, _ => "0"), right);
      assert IsCompressed(text, Values(left) + ZeroGroups(missing) + Values(right), left, right);
      assert Denotes(text, Values(left) + ZeroGroups(missing) + Values(right));
    }
  }

  // ---- Main results ----

  /** Accepted are exactly the two forms of the standard, and the result spells the groups they denote. */
  lemma {:induction false} NormalizesExactly(value: string, c: string)
    ensures Normalize(value) == Some(c) <==> exists groups :: Denotes(Lower(WithoutZone(value)), groups) && c == Canonical(groups)
  {
    var text := Lower(WithoutZone(value));
    hide NormalizeText, Canonical;
    forall groups | Denotes(text, groups) ensures NormalizeText(text) == Some(Canonical(groups)) {
      if parts :| IsFull(text, groups, parts) {
        FullIsAccepted(text, groups, parts);
      } else {
        var left, right :| IsCompressed(text, groups, left, right);
        CompressedIsAccepted(text, groups, left, right);
      }
    }
    if NormalizeText(text) == Some(c) { AcceptedIsDenoted(text); }
  }

  lemma CanonicalIsPlain(groups: seq<nat>)
    requires IsAddress(groups)
    ensures Lower(WithoutZone(Canonical(groups))) == Canonical(groups)
    ensures Denotes(Canonical(groups), groups)
  {
    TextsRead(groups);
    JoinIsPlain(Texts(groups));
    PlainIsUnchanged(Canonical(groups));
    assert IsFull(Canonical(groups), groups, Texts(groups));
  }

  predicate IsPlain(s: string) { forall k | 0 <= k < |s| :: IsHex(s[k]) || s[k] == ':' }

  lemma {:induction false} JoinIsPlain(parts: seq<string>)
    requires AllGroups(parts)
    ensures IsPlain(Join(parts))
    decreases |parts|
  {
    if |parts| > 1 { JoinIsPlain(parts[1..]); }
  }

  lemma {:induction false} PlainIsUnchanged(s: string)
    requires IsPlain(s)
    ensures Lower(WithoutZone(s)) == s
  {
    if s != [] {
      PlainIsUnchanged(s[1..]);
      assert s == [s[0]] + s[1..];
      NoZone(s);
    }
  }

  lemma {:induction false} NoZone(s: string)
    requires IsPlain(s)
    ensures WithoutZone(s) == s
  {
    if s != [] { NoZone(s[1..]); }
  }

  /** The output is a fixed point. */
  lemma {:induction false} NormalFormIsFixed(value: string)
    requires Normalize(value).Some?
    ensures Normalize(Normalize(value).value) == Normalize(value)
  {
    var c := Normalize(value).value;
    hide NormalizeText, Canonical, Denotes;
    NormalizesExactly(value, c);
    var groups :| Denotes(Lower(WithoutZone(value)), groups) && c == Canonical(groups);
    DenotedIsAddress(Lower(WithoutZone(value)), groups);
    CanonicalIsPlain(groups);
    NormalizesExactly(c, c);
  }

  lemma CanonicalIsInjective(g: seq<nat>, h: seq<nat>)
    requires IsAddress(g) && IsAddress(h) && Canonical(g) == Canonical(h)
    ensures g == h
  {
    TextsRead(g);
    TextsRead(h);
    PiecesOfJoin(Texts(g));
    PiecesOfJoin(Texts(h));
  }

  /** Two addresses normalise alike exactly when they denote the same eight groups. */
  lemma {:induction false} AlikeExactlyWhen(v: string, w: string, g: seq<nat>, h: seq<nat>)
    requires Denotes(Lower(WithoutZone(v)), g) && Denotes(Lower(WithoutZone(w)), h)
    ensures Normalize(v).Some? && Normalize(w).Some? && (Normalize(v) == Normalize(w) <==> g == h)
  {
    hide NormalizeText, Canonical, Denotes;
    NormalizesExactly(v, Canonical(g));
    NormalizesExactly(w, Canonical(h));
    DenotedIsAddress(Lower(WithoutZone(v)), g);
    DenotedIsAddress(Lower(WithoutZone(w)), h);
    if Canonical(g) == Canonical(h) { CanonicalIsInjective(g, h); }
  }

  // ---- Case and zone ----

  /** The same text but for the case of letters. */
  predicate SameButCase(a: string, b: string) {
    |a| == |b| && forall k | 0 <= k < |a| ::
      || a[k] == b[k] || ('A' <= a[k] <= 'Z' && b[k] as int == a[k] as int + 32) || ('A' <= b[k] <= 'Z' && a[k] as int == b[k] as int + 32)
  }

  lemma {:induction false} ZoneIsCut(value: string, zone: string)
    requires forall k | 0 <= k < |value| :: value[k] != '%'
    ensures WithoutZone(value) == value && WithoutZone(value + "%" + zone) == value
  {
    if value == [] {
      assert value + "%" + zone == "%" + zone;
    } else {
      ZoneIsCut(value[1..], zone);
      assert (value + "%" + zone)[1..] == value[1..] + "%" + zone;
      assert value == [value[0]] + value[1..];
    }
  }

  /** What follows a percent sign is ignored. */
  lemma {:induction false} ZoneIsIgnored(value: string, zone: string)
    requires forall k | 0 <= k < |value| :: value[k] != '%'
    ensures Normalize(value + "%" + zone) == Normalize(value)
  {
    ZoneIsCut(value, zone);
  }

  lemma {:induction false} CutsAlike(a: string, b: string)
    requires SameButCase(a, b)
    ensures SameButCase(WithoutZone(a), WithoutZone(b))
    decreases |a|
  {
    if a != [] && a[0] != '%' {
      CutsAlike(a[1..], b[1..]);
    }
  }

  /** And so is the case of letters. */
  lemma {:induction false} CaseIsIgnored(a: string, b: string)
    requires SameButCase(a, b)
    ensures Normalize(a) == Normalize(b)
  {
    CutsAlike(a, b);
    assert Lower(WithoutZone(a)) == Lower(WithoutZone(b));
    hide NormalizeText;
  }
}
