/** ULID identifiers (internal/shared/ids/ids.go). Words are integers of their Go width; shifting right by 5 is
    division by 32, masking with 31 is remainder by 32, and or-ing disjoint bit fields is addition. */
module Ulid {
  import opened Text
  import opened Words
  import opened Products
  import opened Base32

  const ENCODED_LEN := 26
  const TIME_LEN := 10
  const RAND_LEN := 16

  // ---- The 80-bit integer ----

  class BigInt80 {
    var hi: uint16
    var lo: uint64

    function Value(): (v: nat)
      reads this
      ensures v < 0x1_0000_0000_0000_0000_0000
    {
      hi as nat * 0x1_0000_0000_0000_0000 + lo as nat
    }

    constructor ()
      ensures Value() == 0
    {
      hi, lo := 0, 0;
    }

    method SetBytes(b: seq<uint8>)
      requires |b| == 10 && Value() == 0
      modifies this
      ensures Value() == BigEndian(b)
    {
      hi := b[0] as uint16 * 0x100 + b[1] as uint16;
      TwoBytes(b);
      for i := 2 to |b|
        invariant hi as nat == BigEndian(b[..2])
        invariant lo as nat == BigEndian(b[2..i]) < Pow256(i - 2)
      {
        ShiftStep(b, i, lo);
        lo := ShiftIn(lo, b[i]);
      }
      Assembled(b);
    }

    function Mod32(): (r: uint8)
      reads this
      ensures r as nat == Value() % 32
    {
      LowWord(hi as nat, lo as nat);
      (lo % 32) as uint8
    }

    /** (hi & 31) << 59 | lo >> 5, then hi >>= 5: exact division of the 80-bit value. */
    method Div32()
      modifies this
      ensures Value() == old(Value()) / 32
    {
      lo := hi as uint64 % 32 * 0x800_0000_0000_0000 + lo / 32;
      hi := hi / 32;
    }
  }

  lemma LowWord(hi: nat, lo: nat)
    ensures (hi * 0x1_0000_0000_0000_0000 + lo) % 32 == lo % 32
  {
    Remainder(hi * 0x1_0000_0000_0000_0000 + lo, 32, hi * 0x800_0000_0000_0000 + lo / 32, lo % 32);
  }

  lemma TwoBytes(b: seq<uint8>)
    requires |b| >= 2
    ensures BigEndian(b[..2]) == b[0] as nat * 0x100 + b[1] as nat
    ensures b[2..2] == []
  {
    assert b[..2] == [b[0], b[1]] && [b[0], b[1]][..1] == [b[0]] && [b[0]][..0] == [];
    assert BigEndian([b[0]]) == b[0] as nat;
  }

  /** lo << 8 | b, which keeps the low 64 bits. */
  function ShiftIn(lo: uint64, b: uint8): uint64 {
    (lo as nat * 0x100 % 0x1_0000_0000_0000_0000) as uint64 + b as uint64
  }

  lemma ShiftStep(b: seq<uint8>, i: nat, lo: uint64)
    requires 2 <= i < |b| && i <= 9 && lo as nat == BigEndian(b[2..i]) < Pow256(i - 2)
    ensures ShiftIn(lo, b[i]) as nat == BigEndian(b[2..i + 1]) < Pow256(i - 1)
  {
    Pow256Bound(i - 2);
    assert b[2..i + 1][..i - 2] == b[2..i];
  }

  /** The two words together are the number that the ten bytes spell. */
  lemma Assembled(b: seq<uint8>)
    requires |b| == 10
    ensures BigEndian(b) == BigEndian(b[..2]) * 0x1_0000_0000_0000_0000 + BigEndian(b[2..10])
  {
    assert b == b[..2] + b[2..10];
    BigEndianConcat(b[..2], b[2..10]);
    Powers();
  }

  // ---- Encoding and parsing ----

  method EncodeTime(dst: array<char>, ms: uint64)
    requires dst.Length >= TIME_LEN
    modifies dst
    ensures dst[..TIME_LEN] == Digits(ms as nat, TIME_LEN)
    ensures dst[TIME_LEN..] == old(dst[TIME_LEN..])
  {
    var rest := ms;
    var i := TIME_LEN;
    while i > 0
      invariant 0 <= i <= TIME_LEN
      invariant Digits(rest as nat, i) + dst[i..TIME_LEN] == Digits(ms as nat, TIME_LEN)
      invariant dst[TIME_LEN..] == old(dst[TIME_LEN..])
    {
      i := i - 1;
      ghost var tail := dst[i + 1..TIME_LEN];
      dst[i] := CROCKFORD[rest % 32];
      assert dst[i..TIME_LEN] == [CROCKFORD[rest % 32]] + tail;
      rest := rest / 32;
    }
  }

  method EncodeRandom(dst: array<char>, entropy: seq<uint8>)
    requires dst.Length == ENCODED_LEN && |entropy| == 10
    modifies dst
    ensures dst[TIME_LEN..] == Digits(BigEndian(entropy), RAND_LEN)
    ensures dst[..TIME_LEN] == old(dst[..TIME_LEN])
  {
    var value := new BigInt80();
    value.SetBytes(entropy);
    var i := RAND_LEN;
    while i > 0
      invariant 0 <= i <= RAND_LEN
      invariant fresh(value)
      invariant Digits(value.Value(), i) + dst[TIME_LEN + i..] == Digits(BigEndian(entropy), RAND_LEN)
      invariant dst[..TIME_LEN] == old(dst[..TIME_LEN])
    {
      i := i - 1;
      ghost var tail := dst[TIME_LEN + i + 1..];
      ghost var v := value.Value();
      dst[TIME_LEN + i] := CROCKFORD[value.Mod32()];
      assert dst[TIME_LEN + i..] == [CROCKFORD[v % 32]] + tail;
      value.Div32();
    }
  }

  function Encode(ms: nat, entropy: seq<uint8>): string {
    Digits(ms, TIME_LEN) + Digits(BigEndian(entropy), RAND_LEN)
  }

  method New(ms: uint64, entropy: seq<uint8>) returns (id: string)
    requires |entropy| == 10
    ensures id == Encode(ms as nat, entropy)
  {
    var out := new char[ENCODED_LEN];
    EncodeTime(out, ms);
    EncodeRandom(out, entropy);
    id := out[..];
    assert id == out[..TIME_LEN] + out[TIME_LEN..];
  }

  function IsValidId(raw: string): bool {
    |raw| == ENCODED_LEN && AllCrockford(ToUpper(raw))
  }

  const ID_CAPITALS := "0123456789ABCDEFGHJKMNPQRSTVWXYZ"

  const ID_SMALL := "abcdefghjkmnpqrstvwxyz"

  lemma SmallDigit(c: char)
    ensures c in ID_SMALL <==> 'a' <= c <= 'z' && IsCrockford(c - 'a' + 'A')
  {
    if 'a' <= c <= 'z' && IsCrockford(c - 'a' + 'A') { SmallDigitAt(c); }
  }

  lemma SmallDigitAt(c: char)
    requires 'a' <= c <= 'z' && IsCrockford(c - 'a' + 'A')
    ensures c in ID_SMALL
  {
    assert ID_SMALL[DigitValue(c - 'a' + 'A') - 10] == c;
  }

  /** The digits of an id, in either case. */
  lemma ValidDigit(c: char)
    ensures IsCrockford(UpperChar(c)) <==> c in ID_CAPITALS || c in ID_SMALL
  {
    SmallDigit(c);
    AlphabetExactly(c);
  }

  /** 26 characters of the alphabet, in either case. */
  predicate IdText(s: string) {
    |s| == 26 && forall i | 0 <= i < |s| :: s[i] in ID_CAPITALS || s[i] in ID_SMALL
  }

  lemma ValidExactly(raw: string)
    ensures IsValidId(raw) <==> IdText(raw)
  {
    forall c { ValidDigit(c); }
    assert forall i | 0 <= i < |raw| :: IsCrockford(ToUpper(raw)[i]) <==> raw[i] in ID_CAPITALS || raw[i] in ID_SMALL;
  }

  method IsValid(raw: string) returns (valid: bool)
    ensures valid == IsValidId(raw) == IdText(raw)
  {
    ValidExactly(raw);
    if |raw| != ENCODED_LEN { return false; }
    for i := 0 to ENCODED_LEN
      invariant forall j | 0 <= j < i :: IsCrockford(UpperChar(raw[j]))
    {
      var c := raw[i];
      if 'a' <= c <= 'z' { c := c - 'a' + 'A'; }
      if !IsCrockford(c) {
        assert ToUpper(raw)[i] == c;
        return false;
      }
    }
    return true;
  }

  datatype Parsed = Ok(id: string) | Invalid

  function Parse(raw: string): Parsed {
    var id := ToUpper(Trim(raw));
    if IsValidId(id) then Ok(id) else Invalid
  }

  // ---- The guarantees ----

  lemma Powers()
    ensures Pow32(TIME_LEN) == 0x4_0000_0000_0000 && Pow32(RAND_LEN) == 0x1_0000_0000_0000_0000_0000
    ensures Pow32(9) == 0x2000_0000_0000
    ensures Pow256(8) == 0x1_0000_0000_0000_0000 && Pow256(10) == 0x1_0000_0000_0000_0000_0000
  {
    assert Pow32(4) == 0x10_0000;
    assert Pow32(8) == 0x100_0000_0000;
    assert Pow32(12) == 0x1000_0000_0000_0000;
    assert Pow256(4) == 0x1_0000_0000;
    assert Pow256(8) == 0x1_0000_0000_0000_0000;
  }

  /** An id is 26 canonical digits, so it is valid and parsing it gives it back. */
  lemma EncodedIsCanonical(ms: nat, entropy: seq<uint8>)
    ensures AllCrockford(Encode(ms, entropy)) && IsValidId(Encode(ms, entropy))
    ensures Parse(Encode(ms, entropy)) == Ok(Encode(ms, entropy))
  {
    DigitsAreCrockford(ms, TIME_LEN);
    DigitsAreCrockford(BigEndian(entropy), RAND_LEN);
    CanonicalIsFixed(Encode(ms, entropy));
  }

  lemma CanonicalIsFixed(id: string)
    requires |id| == ENCODED_LEN && AllCrockford(id)
    ensures IsValidId(id) && Parse(id) == Ok(id)
  {
    assert ToUpper(id) == id;
    TrimIdentity(id);
  }

  lemma Capitals(s: string)
    ensures forall i | 0 <= i < |s| :: Translated(s[i], ToUpper(s)[i], SMALL, CAPITALS)
  {
    forall i | 0 <= i < |s| { Letters(s[i]); }
  }

  /** What Parse accepts: 26 characters of the alphabet, in either case, between spaces; what it returns are the same
      digits, in capitals, and a fixed point. */
  lemma ParseIsIdempotent(raw: string)
    ensures Parse(raw).Ok? <==> IdText(Trim(raw))
    ensures Parse(raw).Ok? ==>
      && AllCrockford(Parse(raw).id) && Parse(Parse(raw).id) == Parse(raw)
      && |Parse(raw).id| == 26
      && forall i | 0 <= i < 26 :: Translated(Trim(raw)[i], Parse(raw).id[i], SMALL, CAPITALS)
  {
    ValidExactly(Trim(raw));
    if Parse(raw).Ok? { Capitals(Trim(raw)); }
    var id := ToUpper(Trim(raw));
    assert ToUpper(id) == id;
    if IsValidId(id) { CanonicalIsFixed(id); }
  }

  lemma EntropyFits(entropy: seq<uint8>)
    requires |entropy| == 10
    ensures BigEndian(entropy) < Pow32(RAND_LEN)
  {
    BigEndianBound(entropy);
    Powers();
  }

  /** The entropy half decodes to the entropy; the time half to the time exactly when it is below 2^50. */
  lemma EncodeDecodes(ms: nat, entropy: seq<uint8>)
    requires |entropy| == 10
    ensures AllCrockford(Encode(ms, entropy)[..TIME_LEN]) && AllCrockford(Encode(ms, entropy)[TIME_LEN..])
    ensures Decode(Encode(ms, entropy)[TIME_LEN..]) == BigEndian(entropy)
    ensures Decode(Encode(ms, entropy)[..TIME_LEN]) == ms <==> ms < 0x4_0000_0000_0000
  {
    Halves(ms, entropy);
    EntropyFits(entropy);
    Powers();
    DecodesWhenItFits(BigEndian(entropy), RAND_LEN);
    DecodesWhenItFits(ms, TIME_LEN);
  }

  lemma Halves(ms: nat, entropy: seq<uint8>)
    ensures Encode(ms, entropy)[..TIME_LEN] == Digits(ms, TIME_LEN)
    ensures Encode(ms, entropy)[TIME_LEN..] == Digits(BigEndian(entropy), RAND_LEN)
  {}

  /** Times below 2^50 and entropies are told apart by their ids. */
  lemma EncodeInjective(ms: nat, e: seq<uint8>, ns: nat, f: seq<uint8>)
    requires |e| == |f| == 10 && ms < 0x4_0000_0000_0000 && ns < 0x4_0000_0000_0000
    ensures Encode(ms, e) == Encode(ns, f) <==> ms == ns && e == f
  {
    EncodeDecodes(ms, e);
    EncodeDecodes(ns, f);
    if Encode(ms, e) == Encode(ns, f) { BigEndianInjective(e, f); }
  }

  /** Ids sort as their (time, entropy) pairs do. */
  lemma IdsSortByTime(ms: nat, e: seq<uint8>, ns: nat, f: seq<uint8>)
    requires |e| == |f| == 10 && ms < 0x4_0000_0000_0000 && ns < 0x4_0000_0000_0000
    ensures Less(Encode(ms, e), Encode(ns, f)) <==> ms < ns || (ms == ns && BigEndian(e) < BigEndian(f))
  {
    var a, x := Digits(ms, TIME_LEN), Digits(BigEndian(e), RAND_LEN);
    var b, y := Digits(ns, TIME_LEN), Digits(BigEndian(f), RAND_LEN);
    LessConcat(a, x, b, y);
    Powers();
    EntropyFits(e);
    EntropyFits(f);
    DecodesWhenItFits(ms, TIME_LEN);
    DecodesWhenItFits(ns, TIME_LEN);
    DecodesWhenItFits(BigEndian(e), RAND_LEN);
    DecodesWhenItFits(BigEndian(f), RAND_LEN);
    OrderAgrees(a, b);
    OrderAgrees(x, y);
  }

  /** The `len` low bytes of a number, most significant first. */
  function Bytes(value: nat, len: nat): (b: seq<uint8>)
    ensures |b| == len
  {
    if len == 0 then [] else Bytes(value / 256, len - 1) + [(value % 256) as uint8]
  }

  lemma {:induction false} BytesSpell(value: nat, len: nat)
    requires value < Pow256(len)
    ensures BigEndian(Bytes(value, len)) == value
  {
    if len > 0 {
      BytesSpell(value / 256, len - 1);
      assert Bytes(value, len)[..len - 1] == Bytes(value / 256, len - 1);
    }
  }

  function TimeOf(id: string): nat
    requires |id| == ENCODED_LEN && AllCrockford(id)
  {
    Decode(id[..TIME_LEN])
  }

  function EntropyOf(id: string): seq<uint8>
    requires |id| == ENCODED_LEN && AllCrockford(id)
  {
    Bytes(Decode(id[TIME_LEN..]), 10)
  }

  /** The codec is onto: every canonical id is the encoding of the time and the entropy read from it. */
  lemma DecodeEncodes(id: string)
    requires |id| == ENCODED_LEN && AllCrockford(id)
    ensures TimeOf(id) < 0x4_0000_0000_0000
    ensures Encode(TimeOf(id), EntropyOf(id)) == id
  {
    Powers();
    DigitsDecode(id[..TIME_LEN]);
    DecodeBound(id[..TIME_LEN]);
    EntropyIsRead(id[TIME_LEN..]);
    assert id == id[..TIME_LEN] + id[TIME_LEN..];
  }

  lemma EntropyIsRead(rand: string)
    requires |rand| == RAND_LEN && AllCrockford(rand)
    ensures Digits(BigEndian(Bytes(Decode(rand), 10)), RAND_LEN) == rand
  {
    DigitsDecode(rand);
    DecodeBound(rand);
    Powers();
    BytesSpell(Decode(rand), 10);
  }

  /** The limit on the first digit in the ULID specification is the 48-bit limit on the time. Parse does not check
      it. */
  lemma FirstDigitIffTimeFits48Bits(id: string)
    requires |id| == ENCODED_LEN && AllCrockford(id)
    ensures id[0] <= '7' <==> TimeOf(id) < 0x1_0000_0000_0000
    ensures Parse(id) == Ok(id)
  {
    CanonicalIsFixed(id);
    FirstDigitBound(id[..TIME_LEN]);
    Powers();
  }

  lemma {:induction false} FirstDigitBound(s: string)
    requires AllCrockford(s) && s != []
    ensures s[0] <= '7' <==> Decode(s) < 8 * Pow32(|s| - 1)
  {
    var n := |s| - 1;
    if n > 0 {
      FirstDigitBound(s[..n]);
    } else {
      assert s[..0] == [];
    }
  }
}
