/**
  The two streaming hash classes, with their block buffer and 32-bit JavaScript arithmetic.

  A JavaScript bit operator converts its operands to 32 bits and yields a SIGNED 32-bit number;
  `>>>` yields an unsigned one; sums are exact numbers until `>>> 0` reduces them.
*/
module Sha256 {
  import opened Common
  import opened Sha256Spec

  // ---- JavaScript 32-bit arithmetic ----

  function ToUint32(n: int): Word { n % TWO_32 }

  function ToInt32(w: Word): int {
    if w < 0x8000_0000 then w else w - TWO_32
  }

  function JsAnd(a: int, b: int): int { ToInt32(And(ToUint32(a), ToUint32(b))) }
  function JsOr(a: int, b: int): int { ToInt32(Or(ToUint32(a), ToUint32(b))) }
  function JsXor(a: int, b: int): int { ToInt32(Xor(ToUint32(a), ToUint32(b))) }
  function JsNot(a: int): int { ToInt32(Not(ToUint32(a))) }
  function JsShl(a: int, n: nat): int requires n < 32 { ToInt32(Shl(ToUint32(a), n)) }
  function JsUshr(a: int, n: nat): int requires n < 32 { Shr(ToUint32(a), n) }

  function JsRotr(value: int, bits: nat): int
    requires 0 < bits < 32
  {
    JsOr(JsUshr(value, bits), JsShl(value, 32 - bits))
  }

  function JsBigSigma1(e: int): int { JsXor(JsXor(JsRotr(e, 6), JsRotr(e, 11)), JsRotr(e, 25)) }
  function JsBigSigma0(a: int): int { JsXor(JsXor(JsRotr(a, 2), JsRotr(a, 13)), JsRotr(a, 22)) }
  function JsChoice(e: int, f: int, g: int): int { JsXor(JsAnd(e, f), JsAnd(JsNot(e), g)) }
  function JsMajority(a: int, b: int, c: int): int { JsXor(JsXor(JsAnd(a, b), JsAnd(a, c)), JsAnd(b, c)) }
  function JsSmallSigma0(x: int): int { JsXor(JsXor(JsRotr(x, 7), JsRotr(x, 18)), JsUshr(x, 3)) }
  function JsSmallSigma1(y: int): int { JsXor(JsXor(JsRotr(y, 17), JsRotr(y, 19)), JsUshr(y, 10)) }

  lemma SignRoundTrip(w: Word)
    ensures ToUint32(ToInt32(w)) == w && ToUint32(w) == w
  {
  }

  lemma SignedXor(a: int, b: int, x: Word, y: Word)
    requires ToUint32(a) == x && ToUint32(b) == y
    ensures ToUint32(JsXor(a, b)) == Xor(x, y) && ToUint32(JsAnd(a, b)) == And(x, y) && ToUint32(JsNot(a)) == Not(x)
  {
    hide And, Xor, Not;
    SignRoundTrip(Xor(x, y));
    SignRoundTrip(And(x, y));
    SignRoundTrip(Not(x));
  }

  lemma SignedRotr(x: Word, n: nat)
    requires 0 < n < 32
    ensures ToUint32(JsRotr(x, n)) == Rotr(x, n) && ToUint32(JsUshr(x, n)) == Shr(x, n)
  {
    hide Or, Shr, Shl;
    SignRoundTrip(x);
    SignRoundTrip(Shr(x, n));
    SignRoundTrip(Shl(x, 32 - n));
    SignRoundTrip(Or(Shr(x, n), Shl(x, 32 - n)));
  }

  lemma SignedSigma(x: Word, p: nat, q: nat, r: nat)
    requires 0 < p < 32 && 0 < q < 32 && 0 < r < 32
    ensures ToUint32(JsXor(JsXor(JsRotr(x, p), JsRotr(x, q)), JsRotr(x, r))) == Xor(Xor(Rotr(x, p), Rotr(x, q)), Rotr(x, r))
    ensures ToUint32(JsXor(JsXor(JsRotr(x, p), JsRotr(x, q)), JsUshr(x, r))) == Xor(Xor(Rotr(x, p), Rotr(x, q)), Shr(x, r))
  {
    hide *;
    SignedRotr(x, p);
    SignedRotr(x, q);
    SignedRotr(x, r);
    SignedXor(JsRotr(x, p), JsRotr(x, q), Rotr(x, p), Rotr(x, q));
    SignedXor(JsXor(JsRotr(x, p), JsRotr(x, q)), JsRotr(x, r), Xor(Rotr(x, p), Rotr(x, q)), Rotr(x, r));
    SignedXor(JsXor(JsRotr(x, p), JsRotr(x, q)), JsUshr(x, r), Xor(Rotr(x, p), Rotr(x, q)), Shr(x, r));
  }

  /** Each signed JavaScript value differs from the FIPS 180-4 word by a multiple of 2^32. */
  lemma SignedFunctions(x: Word, y: Word, z: Word)
    ensures ToUint32(JsBigSigma0(x)) == BigSigma0(x) && ToUint32(JsBigSigma1(x)) == BigSigma1(x)
    ensures ToUint32(JsSmallSigma0(x)) == SmallSigma0(x) && ToUint32(JsSmallSigma1(x)) == SmallSigma1(x)
    ensures ToUint32(JsChoice(x, y, z)) == Ch(x, y, z) && ToUint32(JsMajority(x, y, z)) == Maj(x, y, z)
  {
    hide And, Or, Xor, Not, Shr, Shl, Rotr, JsAnd, JsOr, JsXor, JsNot, JsUshr, JsShl, JsRotr, ToUint32, ToInt32;
    SignedSigma(x, 2, 13, 22);
    SignedSigma(x, 6, 11, 25);
    SignedSigma(x, 7, 18, 3);
    SignedSigma(x, 17, 19, 10);
    SignRoundTrip(x);
    SignRoundTrip(y);
    SignRoundTrip(z);
    SignedXor(x, y, x, y);
    SignedXor(x, z, x, z);
    SignedXor(y, z, y, z);
    SignedXor(JsNot(x), z, Not(x), z);
    SignedXor(JsAnd(x, y), JsAnd(JsNot(x), z), And(x, y), And(Not(x), z));
    SignedXor(JsAnd(x, y), JsAnd(x, z), And(x, y), And(x, z));
    SignedXor(JsXor(JsAnd(x, y), JsAnd(x, z)), JsAnd(y, z), Xor(And(x, y), And(x, z)), And(y, z));
  }

  lemma MultipleVanishes(n: int, k: int)
    ensures ToUint32(n + k * TWO_32) == ToUint32(n)
  {
  }

  /** A sum reduced by `>>> 0` only depends on its terms modulo 2^32. */
  lemma ReducedSum(rest: int, s: int, t: int, u: Word, v: Word)
    requires ToUint32(s) == u && ToUint32(t) == v
    ensures ToUint32(rest + s + t) == (rest + u + v) % TWO_32
  {
    assert s == s / TWO_32 * TWO_32 + u;
    assert t == t / TWO_32 * TWO_32 + v;
    MultipleVanishes(rest + u + v, s / TWO_32 + t / TWO_32);
  }

  /** The new schedule word, as the code computes it, is the FIPS one. */
  lemma ScheduleWord(w16: Word, x: Word, w7: Word, y: Word)
    ensures ToUint32(w16 + JsSmallSigma0(x) + w7 + JsSmallSigma1(y))
         == (SmallSigma1(y) + w7 + SmallSigma0(x) + w16) % TWO_32
  {
    hide *;
    SignedFunctions(x, x, x);
    SignedFunctions(y, y, y);
    ReducedSum(w16 + w7, JsSmallSigma0(x), JsSmallSigma1(y), SmallSigma0(x), SmallSigma1(y));
    assert w16 + JsSmallSigma0(x) + w7 + JsSmallSigma1(y) == w16 + w7 + JsSmallSigma0(x) + JsSmallSigma1(y);
  }

  function Add32(x: Word, y: Word): Word {
    ToUint32((x as int) + (y as int))
  }

  lemma SumsOfVars(h: seq<Word>, v: Vars)
    requires |h| == 8
    ensures AddVars(h, v) == [Add32(h[0], v.a), Add32(h[1], v.b), Add32(h[2], v.c), Add32(h[3], v.d),
                              Add32(h[4], v.e), Add32(h[5], v.f), Add32(h[6], v.g), Add32(h[7], v.h)]
  {
  }

  function JsScheduleWord(w16: Word, x: Word, w7: Word, y: Word): Word {
    ToUint32(w16 + JsSmallSigma0(x) + w7 + JsSmallSigma1(y))
  }

  lemma ScheduleStep(block: seq<Byte>, t: nat)
    requires |block| == 64 && t >= 16
    ensures JsScheduleWord(Schedule(block, t - 16), Schedule(block, t - 15), Schedule(block, t - 7), Schedule(block, t - 2))
         == Schedule(block, t)
  {
    hide JsSmallSigma0, JsSmallSigma1, SmallSigma0, SmallSigma1, ToUint32;
    ScheduleWord(Schedule(block, t - 16), Schedule(block, t - 15), Schedule(block, t - 7), Schedule(block, t - 2));
  }

  function JsT1(v: Vars, k: Word, w: Word): Word {
    ToUint32(v.h + JsBigSigma1(v.e) + JsChoice(v.e, v.f, v.g) + k + w)
  }

  function JsT2(v: Vars): Word {
    ToUint32(JsBigSigma0(v.a) + JsMajority(v.a, v.b, v.c))
  }

  lemma FirstTemporary(v: Vars, k: Word, w: Word)
    ensures JsT1(v, k, w) == T1(v, k, w)
  {
    FirstSum(v.h, JsBigSigma1(v.e), JsChoice(v.e, v.f, v.g), k, w, BigSigma1(v.e), Ch(v.e, v.f, v.g)) by {
      hide *;
      SignedFunctions(v.e, v.f, v.g);
    }
    hide JsBigSigma1, JsChoice, BigSigma1, Ch, ToUint32;
  }

  lemma FirstSum(h: Word, s: int, c: int, k: Word, w: Word, s': Word, c': Word)
    requires ToUint32(s) == s' && ToUint32(c) == c'
    ensures ToUint32(h + s + c + k + w) == (h + s' + c' + k + w) % TWO_32
  {
    ReducedSum(h + k + w, s, c, s', c');
    assert h + s + c + k + w == h + k + w + s + c;
  }

  lemma SecondTemporary(v: Vars)
    ensures JsT2(v) == T2(v)
  {
    ReducedSum(0, JsBigSigma0(v.a), JsMajority(v.a, v.b, v.c), BigSigma0(v.a), Maj(v.a, v.b, v.c)) by {
      hide *;
      SignedFunctions(v.a, v.b, v.c);
    }
    hide JsBigSigma0, JsMajority, BigSigma0, Maj, ToUint32;
  }

  lemma OneMore(q: nat, d: nat)
    ensures (q + 1) * d == q * d + d
  {
  }

  lemma {:induction false} MulOrder(a: nat, b: nat, d: nat)
    requires a < b
    ensures a * d + d <= b * d
    decreases b
  {
    if a + 1 < b { MulOrder(a, b - 1, d); }
    OneMore(b - 1, d);
  }

  lemma QuotientUnique(n: nat, q: nat, r: nat, d: nat)
    requires 0 <= r < d && n == q * d + r
    ensures n / d == q && n % d == r
  {
    var k := n / d;
    assert n == k * d + n % d;
    if k < q { MulOrder(k, q, d); }
    if q < k { MulOrder(q, k, d); }
  }

  /** A byte of the upper half. */
  lemma HighByte(bits: nat, d: nat)
    requires d > 0
    ensures bits / (d * TWO_32) == bits / TWO_32 / d
  {
    var hi, lo := bits / TWO_32, bits % TWO_32;
    assert hi == hi / d * d + hi % d;
    assert hi * TWO_32 == hi / d * (d * TWO_32) + hi % d * TWO_32;
    QuotientUnique(bits, hi / d, hi % d * TWO_32 + lo, d * TWO_32);
  }

  /** A byte of the lower half. */
  lemma LowByte(bits: nat, d: nat, e: nat)
    requires d > 0 && d * (e * 256) == TWO_32
    ensures bits / d % 256 == bits % TWO_32 / d % 256
  {
    var hi, lo := bits / TWO_32, bits % TWO_32;
    assert lo == lo / d * d + lo % d;
    assert hi * TWO_32 == hi * (e * 256) * d;
    QuotientUnique(bits, hi * (e * 256) + lo / d, lo % d, d);
    assert hi * (e * 256) == hi * e * 256;
    QuotientUnique(hi * e * 256 + lo / d, hi * e + lo / d / 256, lo / d % 256, 256);
  }

  lemma HighHalf(bits: nat)
    requires bits < 0x1_0000_0000_0000_0000
    ensures BytesOf(bits / TWO_32 % TWO_32) == BigEndian64(bits)[..4]
  {
    var hi := bits / TWO_32;
    assert hi % TWO_32 == hi;
    HighByte(bits, 0x100_0000);
    HighByte(bits, 0x1_0000);
    HighByte(bits, 0x100);
  }

  lemma LowHalf(bits: nat)
    ensures BytesOf(bits % TWO_32) == BigEndian64(bits)[4..]
  {
    LowByte(bits, 0x100_0000, 1);
    LowByte(bits, 0x1_0000, 0x100);
    LowByte(bits, 0x100, 0x1_0000);
    LowByte(bits, 1, 0x100_0000);
  }

  /** The two halves that `finish` stores make up the 64-bit length block. */
  lemma LengthBlock(bits: nat)
    requires bits < 0x1_0000_0000_0000_0000
    ensures BytesOf(bits / TWO_32 % TWO_32) + BytesOf(bits % TWO_32) == BigEndian64(bits)
  {
    hide BytesOf, BigEndian64;
    HighHalf(bits);
    LowHalf(bits);
  }

  lemma AppendBlock(h: seq<Word>, m: seq<Byte>, block: seq<Byte>)
    requires |h| == 8 && |m| % 64 == 0 && |block| == 64
    ensures HashBlocks(h, m + block) == Compress(HashBlocks(h, m), block)
  {
    hide Compress;
    var whole := m + block;
    assert whole[..|whole| - 64] == m && whole[|whole| - 64..] == block;
  }

  /** All whole blocks of `m` are in the hash value `h`; `pending` is the rest of `m`. */
  ghost predicate Absorbing(m: seq<Byte>, h: seq<Word>, pending: seq<Byte>) {
    && |pending| == |m| % 64
    && m == m[..|m| - |pending|] + pending
    && h == HashBlocks(H0, m[..|m| - |pending|])
  }

  lemma AbsorbPartial(m: seq<Byte>, h: seq<Word>, pending: seq<Byte>, piece: seq<Byte>)
    requires Absorbing(m, h, pending) && |pending| + |piece| < 64
    ensures Absorbing(m + piece, h, pending + piece)
  {
    hide HashBlocks;
    var m', pending' := m + piece, pending + piece;
    assert m'[..|m'| - |pending'|] == m[..|m| - |pending|];
  }

  lemma AbsorbFull(m: seq<Byte>, h: seq<Word>, pending: seq<Byte>, piece: seq<Byte>)
    requires Absorbing(m, h, pending) && |pending| + |piece| == 64
    ensures Absorbing(m + piece, Compress(h, pending + piece), [])
  {
    hide HashBlocks, Compress;
    var m' := m + piece;
    AppendBlock(H0, m[..|m| - |pending|], pending + piece);
    assert m'[..|m'| - 0] == m[..|m| - |pending|] + (pending + piece);
  }

  /** The last block when the length still fits behind the pending bytes. */
  lemma FinishShort(m: seq<Byte>, h: seq<Word>, pending: seq<Byte>)
    requires Absorbing(m, h, pending) && |pending| < 56
    ensures HashBlocks(H0, Pad(m)) == Compress(h, pending + [0x80] + Zeros(55 - |pending|) + BigEndian64(8 * |m|))
  {
    hide HashBlocks, Compress, BigEndian64;
    var last := pending + [0x80] + Zeros(55 - |pending|) + BigEndian64(8 * |m|);
    assert ZeroBytes(|m|) == 55 - |pending|;
    AppendBlock(H0, m[..|m| - |pending|], last);
    assert Pad(m) == m[..|m| - |pending|] + last;
  }

  /** The last two blocks when it does not. */
  lemma FinishLong(m: seq<Byte>, h: seq<Word>, pending: seq<Byte>)
    requires Absorbing(m, h, pending) && |pending| >= 56
    ensures HashBlocks(H0, Pad(m))
         == Compress(Compress(h, pending + [0x80] + Zeros(63 - |pending|)), Zeros(56) + BigEndian64(8 * |m|))
  {
    hide HashBlocks, Compress, BigEndian64;
    var whole := m[..|m| - |pending|];
    var first, last := pending + [0x80] + Zeros(63 - |pending|), Zeros(56) + BigEndian64(8 * |m|);
    assert ZeroBytes(|m|) == 119 - |pending|;
    AppendBlock(H0, whole, first);
    AppendBlock(H0, whole + first, last);
    assert Zeros(ZeroBytes(|m|)) == Zeros(63 - |pending|) + Zeros(56);
    assert Pad(m) == whole + first + last;
  }

  /**
    `IncrementalSha256` and `StreamingSha256`.  They differ in one assignment: the second one also
    resets `blockLength` when it finishes, which the constant selects.
  */
  class StreamingHash {
    const resetsLength: bool
    const state: array<Word>
    const block: array<Byte>
    var blockLength: nat
    var bytesHashed: nat
    var finished: bool
    /** Everything passed to `Update` so far. */
    ghost var message: seq<Byte>

    ghost predicate Valid()
      reads this, state, block
    {
      && state.Length == 8 && block.Length == 64 && state as object != block
      && bytesHashed == |message| < 0x20_0000_0000_0000
      && (!finished ==> blockLength < 64 && Absorbing(message, state[..], block[..blockLength]))
      && (finished ==> state[..] == HashBlocks(H0, Pad(message)))
    }

    constructor (resetsLength: bool)
      ensures Valid() && message == [] && !finished && fresh(state) && fresh(block)
    {
      this.resetsLength := resetsLength;
      state := new Word[8](i requires 0 <= i < 8 => H0[i]);
      block := new Byte[64](_ => 0);
      blockLength, bytesHashed, finished, message := 0, 0, false, [];
      new;
      assert state[..] == H0;
    }

    method LoadWords(words: array<Word>)
      requires block.Length == 64 && words.Length == 64
      modifies words
      ensures forall t :: 0 <= t < 16 ==> words[t] == Schedule(block[..], t)
    {
      for index := 0 to 16
        invariant forall t :: 0 <= t < index ==> words[t] == BigEndian32(block[..], 4 * t)
      {
        words[index] := (block[index * 4] as int) * 0x100_0000 + (block[index * 4 + 1] as int) * 0x1_0000
                      + (block[index * 4 + 2] as int) * 0x100 + block[index * 4 + 3] as int;
      }
    }

    method ExpandSchedule() returns (words: array<Word>)
      requires block.Length == 64
      ensures fresh(words) && words.Length == 64
      ensures forall t :: 0 <= t < 64 ==> words[t] == Schedule(block[..], t)
    {
      hide *;
      words := new Word[64](_ => 0);
      LoadWords(words);
      ghost var bytes := block[..];
      for index := 16 to 64
        invariant forall t :: 0 <= t < index ==> words[t] == Schedule(bytes, t)
      {
        ScheduleStep(bytes, index);
        words[index] := JsScheduleWord(words[index - 16], words[index - 15], words[index - 7], words[index - 2]);
      }
    }

    method MixBlock() returns (v: Vars)
      requires state.Length == 8 && block.Length == 64
      ensures v == Rounds(ToVars(state[..]), block[..], 64)
    {
      hide JsT1, JsT2, T1, T2, Schedule;
      var words := ExpandSchedule();
      ghost var bytes, start := block[..], ToVars(state[..]);
      var a: Word, b: Word, c: Word, d: Word := state[0], state[1], state[2], state[3];
      var e: Word, f: Word, g: Word, h: Word := state[4], state[5], state[6], state[7];
      for index := 0 to 64
        invariant Vars(a, b, c, d, e, f, g, h) == Rounds(start, bytes, index)
        invariant forall t :: 0 <= t < 64 ==> words[t] == Schedule(bytes, t)
      {
        ghost var v := Vars(a, b, c, d, e, f, g, h);
        FirstTemporary(v, K[index], words[index]);
        SecondTemporary(v);
        var temp1 := JsT1(Vars(a, b, c, d, e, f, g, h), K[index], words[index]);
        var temp2 := JsT2(Vars(a, b, c, d, e, f, g, h));
        h := g;
        g := f;
        f := e;
        e := Add32(d, temp1);
        d := c;
        c := b;
        b := a;
        a := Add32(temp1, temp2);
      }
      v := Vars(a, b, c, d, e, f, g, h);
    }

    method CompressBlock()
      requires state.Length == 8 && block.Length == 64
      modifies state
      ensures state[..] == Compress(old(state[..]), block[..])
    {
      hide Rounds;
      ghost var bytes := block[..];
      var v := MixBlock();
      AddToState(v);
      assert block[..] == bytes;
    }

    method AddToState(v: Vars)
      requires state.Length == 8
      modifies state
      ensures state[..] == AddVars(old(state[..]), v)
    {
      SumsOfVars(state[..], v);
      hide Add32, AddVars;
      state[0], state[1] := Add32(state[0], v.a), Add32(state[1], v.b);
      state[2], state[3] := Add32(state[2], v.c), Add32(state[3], v.d);
      state[4], state[5] := Add32(state[4], v.e), Add32(state[5], v.f);
      state[6], state[7] := Add32(state[6], v.g), Add32(state[7], v.h);
    }

    method AbsorbPiece(piece: seq<Byte>)
      requires Valid() && !finished && 0 < |piece| <= 64 - blockLength
      requires |message| + |piece| < 0x20_0000_0000_0000
      modifies this, state, block
      ensures Valid() && !finished && message == old(message) + piece
    {
      hide Absorbing, Compress, HashBlocks;
      ghost var pending, h := block[..blockLength], state[..];
      forall i | 0 <= i < |piece| { block[blockLength + i] := piece[i]; }
      assert state[..] == h;
      blockLength := blockLength + |piece|;
      assert block[..blockLength] == pending + piece;
      if blockLength == 64 {
        AbsorbFull(message, state[..], pending, piece);
        assert block[..] == pending + piece;
        CompressBlock();
        blockLength := 0;
        assert block[..0] == [];
      } else {
        AbsorbPartial(message, state[..], pending, piece);
      }
      message := message + piece;
      bytesHashed := bytesHashed + |piece|;
    }

    /** `update` throws once the hash is finished. */
    method Update(input: seq<Byte>) returns (ok: bool)
      requires Valid() && |message| + |input| < 0x20_0000_0000_0000
      modifies this, state, block
      ensures Valid() && finished == old(finished) && ok == !old(finished)
      ensures message == if ok then old(message) + input else old(message)
    {
      hide Absorbing, HashBlocks;
      ok := !finished;
      if finished { return; }
      var offset := 0;
      assert input[..0] == [];
      while offset < |input|
        invariant 0 <= offset <= |input|
        invariant Valid() && !finished
        invariant message == old(message) + input[..offset]
      {
        var take := if 64 - blockLength < |input| - offset then 64 - blockLength else |input| - offset;
        AbsorbPiece(input[offset..offset + take]);
        assert input[..offset] + input[offset..offset + take] == input[..offset + take];
        offset := offset + take;
      }
      assert input[..|input|] == input;
    }

    method Finish()
      requires Valid() && !finished
      modifies this, state, block
      ensures Valid() && finished && message == old(message)
    {
      hide Absorbing, Compress, HashBlocks, BigEndian64, Pad;
      ghost var pending, h := block[..blockLength], state[..];
      finished := true;
      var bitLength := bytesHashed * 8;
      block[blockLength] := 0x80;
      blockLength := blockLength + 1;
      if blockLength > 56 {
        FinishLong(message, h, pending);
        forall i | blockLength <= i < 64 { block[i] := 0; }
        assert block[..] == pending + [0x80] + Zeros(63 - |pending|) && state[..] == h;
        CompressBlock();
        h := state[..];
        blockLength := 0;
        forall i | 0 <= i < 56 { block[i] := 0; }
        assert block[..56] == Zeros(56);
      } else {
        FinishShort(message, h, pending);
        forall i | blockLength <= i < 56 { block[i] := 0; }
        assert block[..56] == pending + [0x80] + Zeros(55 - |pending|);
      }
      StoreLength(bitLength);
      assert block[..] == block[..56] + BigEndian64(bitLength) && state[..] == h;
      CompressBlock();
      if resetsLength { blockLength := 0; }
    }

    method StoreLength(bitLength: nat)
      requires block.Length == 64 && bitLength < 0x1_0000_0000_0000_0000
      modifies block
      ensures block[..56] == old(block[..56]) && block[56..] == BigEndian64(bitLength)
    {
      hide BytesOf, BigEndian64;
      LengthBlock(bitLength);
      var bytes := BytesOf(bitLength / TWO_32 % TWO_32) + BytesOf(bitLength % TWO_32);
      forall i | 0 <= i < 8 { block[56 + i] := bytes[i]; }
      assert block[56..] == bytes;
      assert block[..56] == old(block[..56]);
    }

    method DigestBytes() returns (output: array<Byte>)
      requires Valid()
      modifies this, state, block
      ensures Valid() && finished && message == old(message)
      ensures fresh(output) && output[..] == Sha256(message)
    {
      if !finished { Finish(); }
      output := WriteWords();
    }

    method WriteWords() returns (output: array<Byte>)
      requires state.Length == 8
      ensures fresh(output) && output[..] == Digest(state[..])
    {
      hide BytesOf, Digest;
      DigestGrows([], 0);
      output := new Byte[32](_ => 0);
      for index := 0 to 8
        invariant output[..4 * index] == Digest(state[..index])
      {
        var bytes := BytesOf(state[index]);
        output[index * 4], output[index * 4 + 1] := bytes[0], bytes[1];
        output[index * 4 + 2], output[index * 4 + 3] := bytes[2], bytes[3];
        DigestGrows(state[..index], state[index]);
        assert state[..index + 1] == state[..index] + [state[index]];
        assert output[..4 * (index + 1)] == output[..4 * index] + bytes;
      }
      assert state[..8] == state[..] && output[..32] == output[..];
    }
  }

  lemma DigestGrows(words: seq<Word>, w: Word)
    ensures Digest([]) == [] && Digest(words + [w]) == Digest(words) + BytesOf(w)
  {
    assert (words + [w])[..|words|] == words;
  }

  function Concat(pieces: seq<seq<Byte>>): seq<Byte> {
    if pieces == [] then [] else Concat(pieces[..|pieces| - 1]) + pieces[|pieces| - 1]
  }

  /**
    `sha256BlobHex` before the hexadecimal rendering: whatever pieces the stream delivers, and with
    either class, the digest is the FIPS 180-4 hash of their concatenation.
  */
  method HashStream(pieces: seq<seq<Byte>>, resetsLength: bool) returns (digest: seq<Byte>)
    requires |Concat(pieces)| < 0x20_0000_0000_0000
    ensures digest == Sha256(Concat(pieces))
  {
    hide *;
    EmptyConcat(pieces);
    var hasher := new StreamingHash(resetsLength);
    var index := 0;
    while index < |pieces|
      invariant 0 <= index <= |pieces|
      invariant fresh(hasher) && fresh(hasher.state) && fresh(hasher.block)
      invariant hasher.Valid() && !hasher.finished
      invariant hasher.message == Concat(pieces[..index])
    {
      ConcatNext(pieces, index);
      PrefixShorter(pieces, index + 1);
      var ok := hasher.Update(pieces[index]);
      index := index + 1;
    }
    assert pieces[..|pieces|] == pieces;
    var output := hasher.DigestBytes();
    digest := output[..];
  }

  lemma EmptyConcat(pieces: seq<seq<Byte>>)
    ensures Concat(pieces[..0]) == []
  {
  }

  lemma ConcatNext(pieces: seq<seq<Byte>>, n: nat)
    requires n < |pieces|
    ensures Concat(pieces[..n + 1]) == Concat(pieces[..n]) + pieces[n]
  {
    assert pieces[..n + 1][..n] == pieces[..n];
  }

  lemma {:induction false} PrefixShorter(pieces: seq<seq<Byte>>, n: nat)
    requires n <= |pieces|
    ensures |Concat(pieces[..n])| <= |Concat(pieces)|
    decreases |pieces| - n
  {
    if n == |pieces| {
      assert pieces[..n] == pieces;
    } else {
      ConcatNext(pieces, n);
      PrefixShorter(pieces, n + 1);
    }
  }
}
