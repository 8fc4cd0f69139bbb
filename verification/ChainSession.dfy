/** Decoding the return data of the escrow's `sessions()` getter: thirteen 32-byte words, possibly behind
    an offset word. Amounts are big-endian 256-bit words, clamped to 128 bits on the way in. */
module ChainSession {
  import opened Wrappers
  import opened Words

  type byte = x: int | 0 <= x < 256
  type Bytes = seq<byte>

  const HEAD_WORDS := 13
  const STRUCT_OFFSET := 0x20
  const U128_MAX: int := 0xFFFF_FFFF_FFFF_FFFF_FFFF_FFFF_FFFF_FFFF

  datatype Session = Session(
    user: Bytes,
    nodeId: Bytes,
    modelId: Bytes,
    tier: byte,
    locked: nat,
    used: nat,
    inputTokens: nat,
    outputTokens: nat,
    settled: bool)

  datatype DecodeError = TooShort(need: nat, got: nat)

  // ------------------------------------------------------------------ big-endian numbers

  function Pow256(n: nat): (p: nat)
    ensures p >= 1
  {
    if n == 0 then 1 else 256 * Pow256(n - 1)
  }

  function FromBE(b: Bytes): nat {
    if b == [] then 0 else 256 * FromBE(b[..|b| - 1]) + b[|b| - 1]
  }

  function ToBE(v: nat, len: nat): (b: Bytes)
    ensures |b| == len
  {
    if len == 0 then [] else ToBE(v / 256, len - 1) + [v % 256]
  }

  lemma {:induction false} RoundTripBE(v: nat, len: nat)
    requires v < Pow256(len)
    ensures FromBE(ToBE(v, len)) == v
  {
    if len > 0 {
      assert ToBE(v, len)[..len - 1] == ToBE(v / 256, len - 1);
      RoundTripBE(v / 256, len - 1);
    }
  }

  lemma DivModUnique(v: nat, d: nat, q: nat, r: nat)
    requires d > 0 && v == d * q + r && r < d
    ensures v % d == r
  {
    var q', r' := v / d, v % d;
    assert v == d * q' + r';
    assert d * q - d * q' == d * (q - q');
    AtLeastOnce(d, q - q');
  }

  /** A product with a nonzero factor is no smaller than the other factor. */
  lemma AtLeastOnce(d: nat, x: int)
    ensures x >= 1 ==> d * x >= d
    ensures x <= -1 ==> d * x + d <= 0
  {
    assert d * x == d * (x - 1) + d == d * (x + 1) - d;
  }

  lemma {:induction false} BytesOfBE(b: Bytes)
    ensures FromBE(b) < Pow256(|b|) && ToBE(FromBE(b), |b|) == b
  {
    if b != [] {
      var n := |b| - 1;
      BytesOfBE(b[..n]);
      assert FromBE(b) / 256 == FromBE(b[..n]) && FromBE(b) % 256 == b[n];
    }
  }

  lemma {:induction false} FromBEAppend(a: Bytes, b: Bytes)
    ensures FromBE(a + b) == FromBE(a) * Pow256(|b|) + FromBE(b)
    decreases |b|
  {
    if b == [] {
      assert a + b == a;
    } else {
      var n := |b| - 1;
      FromBEAppend(a, b[..n]);
      assert (a + b)[..|a| + n] == a + b[..n];
      ShiftByte(FromBE(a), Pow256(n), FromBE(b[..n]), b[n]);
    }
  }

  lemma ShiftByte(x: nat, p: nat, y: nat, d: nat)
    ensures 256 * (x * p + y) + d == x * (256 * p) + (256 * y + d)
  {}

  // ------------------------------------------------------------------ the readers

  function Word(data: Bytes, index: nat): (r: Result<Bytes, DecodeError>)
    ensures r.Ok? <==> |data| >= 32 * (index + 1)
    ensures r.Ok? ==> |r.value| == 32
  {
    var start, end := index * 32, index * 32 + 32;
    if |data| >= end then Ok(data[start..end]) else Err(TooShort(end, |data|))
  }

  /** `u128::try_from(..).unwrap_or(u128::MAX)`. */
  function Clamp(v: nat): nat {
    if v <= U128_MAX then v else U128_MAX
  }

  function HeadBytes(data: Bytes): Result<Bytes, DecodeError> {
    if |data| < 32 then Err(TooShort(32, |data|))
    else if FromBE(data[..32]) == STRUCT_OFFSET then
      if |data| < STRUCT_OFFSET + HEAD_WORDS * 32 then Err(TooShort(STRUCT_OFFSET + HEAD_WORDS * 32, |data|))
      else Ok(data[STRUCT_OFFSET..])
    else if |data| < HEAD_WORDS * 32 then Err(TooShort(HEAD_WORDS * 32, |data|))
    else Ok(data)
  }

  /** Each field from its word: the low 20 bytes of an address, the low byte of the tier, the low eight
      bytes of a token count, the last byte of a flag. */
  function SessionOf(w: seq<Bytes>): Session
    requires |w| >= HEAD_WORDS && forall i :: 0 <= i < |w| ==> |w[i]| == 32
  {
    Session(w[0][12..32], w[1], w[2], w[3][31], Clamp(FromBE(w[4])), Clamp(FromBE(w[5])),
            FromBE(w[11][24..32]), FromBE(w[12][24..32]), w[10][31] != 0)
  }

  function Decode(data: Bytes): Result<Session, DecodeError> {
    match HeadBytes(data)
    case Err(e) => Err(e)
    case Ok(head) =>
      match (Word(head, 0), Word(head, 1), Word(head, 2), Word(head, 3), Word(head, 4), Word(head, 5))
      case (Ok(w0), Ok(w1), Ok(w2), Ok(w3), Ok(w4), Ok(w5)) => (
        match (Word(head, 10), Word(head, 11), Word(head, 12))
        case (Ok(w10), Ok(w11), Ok(w12)) =>
          Ok(Session(w0[12..32], w1, w2, w3[31], Clamp(FromBE(w4)), Clamp(FromBE(w5)),
                     FromBE(w11[24..32]), FromBE(w12[24..32]), w10[31] != 0))
        case _ => Err(TooShort(HEAD_WORDS * 32, |head|)))
      case _ => Err(TooShort(HEAD_WORDS * 32, |head|))
  }

  // ------------------------------------------------------------------ the encoding

  /** A session as the contract stores it; the four middle fields are not decoded. */
  datatype Stored = Stored(
    user: Bytes, nodeId: Bytes, modelId: Bytes, tier: byte, locked: nat, used: nat,
    rest: seq<Bytes>, settled: bool, inputTokens: nat, outputTokens: nat)

  predicate ValidStored(s: Stored) {
    && |s.user| == 20 && |s.nodeId| == 32 && |s.modelId| == 32
    && s.locked < Pow256(32) && s.used < Pow256(32)
    && |s.rest| == 4 && (forall i :: 0 <= i < 4 ==> |s.rest[i]| == 32)
    && s.inputTokens <= U64_MAX && s.outputTokens <= U64_MAX
  }

  function Zeros(n: nat): (b: Bytes)
    ensures |b| == n
  {
    seq(n, _ => 0)
  }

  /** The thirteen head words: left-padded numbers, addresses and flags, as the Solidity Contract ABI
      Specification lays them out (section "Formal Specification of the Encoding"). */
  function HeadWordsOf(s: Stored): (w: seq<Bytes>)
    requires ValidStored(s)
    ensures |w| == HEAD_WORDS && forall i :: 0 <= i < |w| ==> |w[i]| == 32
  {
    [Zeros(12) + s.user, s.nodeId, s.modelId, ToBE(s.tier, 32), ToBE(s.locked, 32), ToBE(s.used, 32),
     s.rest[0], s.rest[1], s.rest[2], s.rest[3],
     ToBE(if s.settled then 1 else 0, 32), ToBE(s.inputTokens, 32), ToBE(s.outputTokens, 32)]
  }

  function Flatten(w: seq<Bytes>): Bytes {
    if w == [] then [] else Flatten(w[..|w| - 1]) + w[|w| - 1]
  }

  function Encode(s: Stored): Bytes
    requires ValidStored(s)
  {
    Flatten(HeadWordsOf(s))
  }

  function Clamped(s: Stored): Session {
    Session(s.user, s.nodeId, s.modelId, s.tier, Clamp(s.locked), Clamp(s.used),
            s.inputTokens, s.outputTokens, s.settled)
  }

  lemma {:induction false} FlattenAt(w: seq<Bytes>, i: nat)
    requires i < |w| && forall k :: 0 <= k < |w| ==> |w[k]| == 32
    ensures |Flatten(w)| == 32 * |w| && Flatten(w)[32 * i..32 * i + 32] == w[i]
    decreases |w|
  {
    var n := |w| - 1;
    if n == 0 {
      assert w[..0] == [];
    } else {
      FlattenAt(w[..n], if i < n then i else n - 1);
      if i < n { assert Flatten(w)[32 * i..32 * i + 32] == Flatten(w[..n])[32 * i..32 * i + 32]; }
    }
  }

  /** Reading word i of an encoding followed by anything. */
  lemma WordAt(w: seq<Bytes>, tail: Bytes, i: nat)
    requires |w| == HEAD_WORDS && i < |w| && forall k :: 0 <= k < |w| ==> |w[k]| == 32
    ensures Word(Flatten(w) + tail, i) == Ok(w[i])
  {
    FlattenAt(w, i);
    var data := Flatten(w) + tail;
    assert data[32 * i..32 * i + 32] == Flatten(w)[32 * i..32 * i + 32];
  }

  lemma {:induction false} ToBELow(v: nat, len: nat, k: nat)
    requires k <= len
    ensures ToBE(v, len)[len - k..] == ToBE(v, k)
    decreases k
  {
    if k > 0 {
      ToBELow(v / 256, len - 1, k - 1);
      var b := ToBE(v, len);
      assert b[..len - 1] == ToBE(v / 256, len - 1);
      assert b[len - k..] == b[..len - 1][len - k..] + [b[len - 1]];
    }
  }

  lemma Powers()
    ensures Pow256(8) == U64_MAX + 1 && Pow256(16) == U128_MAX + 1 && Pow256(1) == 256
  {
    assert Pow256(2) == 0x1_0000;
    assert Pow256(4) == 0x1_0000_0000;
    assert Pow256(6) == 0x1_0000_0000_0000;
    assert Pow256(8) == 0x1_0000_0000_0000_0000;
    assert Pow256(10) == 0x1_0000_0000_0000_0000_0000;
    assert Pow256(12) == 0x1_0000_0000_0000_0000_0000_0000;
    assert Pow256(14) == 0x1_0000_0000_0000_0000_0000_0000_0000;
  }

  /** A token count survives its 32-byte word. */
  lemma TokenWord(v: nat)
    requires v <= U64_MAX
    ensures FromBE(ToBE(v, 32)[24..32]) == v
  {
    Powers();
    ToBELow(v, 32, 8);
    RoundTripBE(v, 8);
    assert ToBE(v, 32)[24..32] == ToBE(v, 32)[24..];
  }

  lemma LastByte(v: byte)
    ensures ToBE(v, 32)[31] == v
  {}

  lemma WordsMeanTheSession(s: Stored)
    requires ValidStored(s)
    ensures SessionOf(HeadWordsOf(s)) == Clamped(s)
  {
    var w, r := HeadWordsOf(s), SessionOf(HeadWordsOf(s));
    assert w[0][12..32] == s.user;
    assert r.locked == Clamp(s.locked) && r.used == Clamp(s.used) by {
      RoundTripBE(s.locked, 32);
      RoundTripBE(s.used, 32);
    }
    assert r.inputTokens == s.inputTokens && r.outputTokens == s.outputTokens by {
      TokenWord(s.inputTokens);
      TokenWord(s.outputTokens);
    }
    assert r.tier == s.tier by { LastByte(s.tier); }
    assert r.settled == s.settled by { LastByte(if s.settled then 1 else 0); }
  }

  lemma DecodeWords(w: seq<Bytes>, tail: Bytes, data: Bytes)
    requires |w| == HEAD_WORDS && forall k :: 0 <= k < |w| ==> |w[k]| == 32
    requires HeadBytes(data) == Ok(Flatten(w) + tail)
    ensures Decode(data) == Ok(SessionOf(w))
  {
    WordAt(w, tail, 0); WordAt(w, tail, 1); WordAt(w, tail, 2); WordAt(w, tail, 3);
    WordAt(w, tail, 4); WordAt(w, tail, 5); WordAt(w, tail, 10); WordAt(w, tail, 11); WordAt(w, tail, 12);
  }

  /** Behind an offset word every session decodes to itself, amounts clamped, whatever follows. */
  lemma RoundTripPrefixed(s: Stored, tail: Bytes)
    requires ValidStored(s)
    ensures Decode(ToBE(STRUCT_OFFSET, 32) + Encode(s) + tail) == Ok(Clamped(s))
  {
    var w := HeadWordsOf(s);
    var offset := ToBE(STRUCT_OFFSET, 32);
    var data := offset + Flatten(w) + tail;
    assert |Flatten(w)| == 32 * HEAD_WORDS by { FlattenAt(w, 0); }
    assert FromBE(offset) == STRUCT_OFFSET by { LargePower(); RoundTripBE(STRUCT_OFFSET, 32); }
    assert data[..32] == offset && data[32..] == Flatten(w) + tail;
    DecodeWords(w, tail, data);
    WordsMeanTheSession(s);
  }

  lemma LargePower()
    ensures STRUCT_OFFSET < Pow256(32)
  {
    PowerGrows(1, 32);
    assert Pow256(1) == 256;
  }

  lemma {:induction false} PowerGrows(a: nat, b: nat)
    requires a <= b
    ensures 0 < Pow256(a) <= Pow256(b)
    decreases b
  {
    if a < b { PowerGrows(a, b - 1); } else if a > 0 { PowerGrows(a - 1, b - 1); }
  }

  /** The user address reads as the offset word. */
  predicate LooksLikeOffset(user: Bytes) {
    FromBE(user) == STRUCT_OFFSET
  }

  lemma ZerosAreZero(n: nat)
    ensures FromBE(Zeros(n)) == 0
  {
    if n > 0 {
      assert Zeros(n)[..n - 1] == Zeros(n - 1);
      ZerosAreZero(n - 1);
    }
  }

  lemma PaddingIsNothing(n: nat, b: Bytes)
    ensures FromBE(Zeros(n) + b) == FromBE(b)
  {
    FromBEAppend(Zeros(n), b);
    ZerosAreZero(n);
    assert 0 * Pow256(|b|) == 0;
  }

  lemma FirstWord(s: Stored, tail: Bytes)
    requires ValidStored(s)
    ensures var data := Encode(s) + tail;
      |data| >= 32 * HEAD_WORDS && FromBE(data[..32]) == FromBE(s.user)
  {
    var w := HeadWordsOf(s);
    FlattenAt(w, 0);
    var data := Flatten(w) + tail;
    assert data[..32] == Flatten(w)[0..32] == w[0];
    PaddingIsNothing(12, s.user);
  }

  /** Without an offset word the same holds for every user but the address 0x20. */
  lemma RoundTripPlain(s: Stored, tail: Bytes)
    requires ValidStored(s) && !LooksLikeOffset(s.user)
    ensures Decode(Encode(s) + tail) == Ok(Clamped(s))
  {
    FirstWord(s, tail);
    DecodeWords(HeadWordsOf(s), tail, Encode(s) + tail);
    WordsMeanTheSession(s);
  }

  /** And exactly for those, when nothing follows the head. */
  lemma PlainExactly(s: Stored)
    requires ValidStored(s)
    ensures Decode(Encode(s)) == Ok(Clamped(s)) <==> !LooksLikeOffset(s.user)
  {
    FirstWord(s, []);
    FlattenAt(HeadWordsOf(s), 0);
    assert Encode(s) + [] == Encode(s);
    if !LooksLikeOffset(s.user) { RoundTripPlain(s, []); }
  }

  /** Decoding fails exactly on data too short for its form. */
  lemma DecodeTotal(data: Bytes)
    ensures Decode(data).Ok? <==>
      |data| >= 32 && |data| >= (if FromBE(data[..32]) == STRUCT_OFFSET then 32 * (HEAD_WORDS + 1) else 32 * HEAD_WORDS)
  {}

  /** And the error says how many bytes were needed and how many there were. */
  lemma TooShortIs(data: Bytes)
    requires Decode(data).Err?
    ensures |data| < 32 ==> Decode(data) == Err(TooShort(32, |data|))
    ensures |data| >= 32 && FromBE(data[..32]) == 0x20 ==> Decode(data) == Err(TooShort(448, |data|))
    ensures |data| >= 32 && FromBE(data[..32]) != 0x20 ==> Decode(data) == Err(TooShort(416, |data|))
  {}

  /** Whatever the words hold: the decoder keeps token counts modulo 2^64 and amounts up to 2^128 - 1. */
  lemma FieldsOfAnyWords(w: seq<Bytes>, tail: Bytes)
    requires |w| == HEAD_WORDS && forall k :: 0 <= k < |w| ==> |w[k]| == 32
    requires FromBE(w[0]) != STRUCT_OFFSET
    ensures var r := Decode(Flatten(w) + tail);
      && r.Ok?
      && r.value.inputTokens == FromBE(w[11]) % (U64_MAX + 1)
      && r.value.outputTokens == FromBE(w[12]) % (U64_MAX + 1)
      && r.value.locked == Min(FromBE(w[4]), U128_MAX) && r.value.used == Min(FromBE(w[5]), U128_MAX)
  {
    var data := Flatten(w) + tail;
    FlattenAt(w, 0);
    assert data[..32] == Flatten(w)[0..32];
    DecodeWords(w, tail, data);
    LowBytes(w[11]);
    LowBytes(w[12]);
  }

  /** The 32 bytes at each word's place. */
  function WordsIn(data: Bytes): (w: seq<Bytes>)
    requires |data| >= 416
    ensures |w| == HEAD_WORDS && forall i :: 0 <= i < HEAD_WORDS ==> |w[i]| == 32 && Word(data, i) == Ok(w[i])
  {
    seq(HEAD_WORDS, i requires 0 <= i < HEAD_WORDS => data[32 * i..32 * i + 32])
  }

  lemma WordsDecide(data: Bytes)
    requires |data| >= 416 && FromBE(data[..32]) != 0x20
    ensures Decode(data) == Ok(SessionOf(WordsIn(data)))
  {}

  /** Where each field lies, byte by byte, for any data: 32-byte words, numbers at their right ends. */
  lemma Layout(data: Bytes)
    requires |data| >= 416 && FromBE(data[..32]) != 0x20
    ensures var r := Decode(data);
      && r.Ok?
      && r.value.user == data[12..32] && r.value.nodeId == data[32..64] && r.value.modelId == data[64..96]
      && r.value.tier == data[127] && r.value.settled == (data[351] != 0)
      && r.value.locked == Min(FromBE(data[128..160]), 0xFFFF_FFFF_FFFF_FFFF_FFFF_FFFF_FFFF_FFFF)
      && r.value.used == Min(FromBE(data[160..192]), 0xFFFF_FFFF_FFFF_FFFF_FFFF_FFFF_FFFF_FFFF)
      && r.value.inputTokens == FromBE(data[376..384]) && r.value.outputTokens == FromBE(data[408..416])
  {
    WordsDecide(data);
    var w := WordsIn(data);
    assert w[0][12..32] == data[12..32] && w[1] == data[32..64] && w[2] == data[64..96];
    assert w[3][31] == data[127] && w[10][31] == data[351];
    assert w[4] == data[128..160] && w[5] == data[160..192];
    assert w[11][24..32] == data[376..384] && w[12][24..32] == data[408..416];
  }

  /** And the same 32 bytes further on behind the offset word 0x20. */
  lemma PrefixedLayout(data: Bytes)
    requires |data| >= 448 && FromBE(data[..32]) == 0x20 && FromBE(data[32..64]) != 0x20
    ensures Decode(data) == Decode(data[32..])
  {
    assert data[32..][..32] == data[32..64];
  }

  /** Numbers are big-endian. */
  lemma BigEndian(a: byte, b: byte)
    ensures FromBE([a, b]) == 256 * a + b
  {
    assert [a, b][..1] == [a];
    FromBEAppend([], [a]);
    assert [] + [a] == [a] && [a][..0] == [];
    assert FromBE([a]) == 256 * FromBE([]) + a;
  }

  lemma LowBytes(b: Bytes)
    requires |b| == 32
    ensures FromBE(b[24..32]) == FromBE(b) % (U64_MAX + 1)
  {
    Powers();
    FromBEAppend(b[..24], b[24..32]);
    assert b[..24] + b[24..32] == b;
    BytesOfBE(b[24..32]);
    DivModUnique(FromBE(b), U64_MAX + 1, FromBE(b[..24]), FromBE(b[24..32]));
  }

  // ------------------------------------------------------------------ budgets

  /** `budget_exhausted` on the decoded session. */
  predicate BudgetExhausted(s: Session) {
    s.used >= s.locked && s.locked > 0
  }

  /** The same test on the 256-bit amounts of the contract. */
  predicate ExhaustedOnChain(s: Stored) {
    s.used >= s.locked && s.locked > 0
  }

  /** Clamping never hides an exhausted budget, and reports one too early exactly for locks that do not
      fit 128 bits. */
  lemma BudgetSound(s: Stored)
    ensures ExhaustedOnChain(s) ==> BudgetExhausted(Clamped(s))
    ensures BudgetExhausted(Clamped(s)) && !ExhaustedOnChain(s) <==> U128_MAX <= s.used < s.locked
  {}

  lemma BudgetExactly(s: Stored)
    requires ValidStored(s)
    ensures s.locked <= U128_MAX <==>
      forall used: nat :: used < Pow256(32) ==> BudgetAgrees(s.(used := used))
  {
    if s.locked > U128_MAX {
      assert !BudgetAgrees(s.(used := s.locked - 1));
    }
  }

  /** A lock of nothing is never exhausted; any other is once the usage has reached it. */
  lemma BudgetCases(s: Session)
    ensures s.locked == 0 ==> !BudgetExhausted(s)
    ensures s.locked > 0 && s.used == s.locked ==> BudgetExhausted(s)
    ensures s.used < s.locked ==> !BudgetExhausted(s)
    ensures s.used > s.locked > 0 ==> BudgetExhausted(s)
  {}

  predicate BudgetAgrees(s: Stored) {
    ExhaustedOnChain(s) == BudgetExhausted(Clamped(s))
  }
}
