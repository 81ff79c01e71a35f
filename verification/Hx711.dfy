/** The scale's converter: decoding of its 24-bit words, and the filter that skips anomalous ones. */
module Hx711 {
  import opened Options

  newtype int32 = x: int | -0x8000_0000 <= x < 0x8000_0000

  const ANOMALY_CONFIRM_COUNT := 3
  const MAX_RAW_JUMP := 2140
  const SIGN_BIT := 0x80_0000
  const WORD := 0x100_0000

  // ----- decoding -----

  /** The bits as an unsigned number, most significant bit first. */
  function Unsigned(bits: seq<bool>): nat {
    if bits == [] then 0 else 2 * Unsigned(bits[..|bits| - 1]) + if bits[|bits| - 1] then 1 else 0
  }

  function Pow2(n: nat): (p: nat)
    ensures p > 0
  {
    if n == 0 then 1 else 2 * Pow2(n - 1)
  }

  /** The `n` bits of a number, most significant bit first. */
  function Bits(v: nat, n: nat): (bits: seq<bool>)
    ensures |bits| == n
  {
    if n == 0 then [] else Bits(v / 2, n - 1) + [v % 2 == 1]
  }

  /** What the 24 bits stand for in two's complement: the first bit weighs minus 2^23. */
  function Signed(bits: seq<bool>): (v: int)
    requires |bits| == 24
    ensures -SIGN_BIT <= v < SIGN_BIT
  {
    UnsignedRange(bits[1..]);
    PowersOfTheWord();
    Unsigned(bits[1..]) - if bits[0] then SIGN_BIT else 0
  }

  lemma {:induction false} UnsignedRange(bits: seq<bool>)
    ensures Unsigned(bits) < Pow2(|bits|)
  {
    if bits != [] { UnsignedRange(bits[..|bits| - 1]); }
  }

  lemma {:induction false} UnsignedSplit(bits: seq<bool>)
    requires bits != []
    ensures Unsigned(bits) == Unsigned(bits[1..]) + if bits[0] then Pow2(|bits| - 1) else 0
  {
    if |bits| == 1 {
      assert bits[..0] == [] && bits[1..] == [];
    } else {
      var init := bits[..|bits| - 1];
      UnsignedSplit(init);
      assert bits[1..][..|bits| - 2] == init[1..];
    }
  }

  lemma PowersOfTheWord()
    ensures Pow2(23) == SIGN_BIT && Pow2(24) == WORD
  {
    assert Pow2(8) == 256;
    assert Pow2(16) == 65536;
    assert Pow2(23) == 8388608;
  }

  /** The word as read so far stays small, whatever the bits. */
  lemma {:induction false} PrefixIsSmall(bits: seq<bool>, n: nat)
    requires |bits| <= n
    ensures Unsigned(bits) < Pow2(n)
  {
    if |bits| == n {
      UnsignedRange(bits);
    } else {
      PrefixIsSmall(bits, n - 1);
    }
  }

  lemma {:induction false} BitsRoundTrip(v: nat, n: nat)
    requires v < Pow2(n)
    ensures Unsigned(Bits(v, n)) == v
  {
    if n > 0 {
      BitsRoundTrip(v / 2, n - 1);
      assert Bits(v, n)[..n - 1] == Bits(v / 2, n - 1);
    }
  }

  lemma {:induction false} UnsignedRoundTrip(bits: seq<bool>)
    ensures Bits(Unsigned(bits), |bits|) == bits
  {
    if bits != [] {
      var init := bits[..|bits| - 1];
      UnsignedRoundTrip(init);
      assert Unsigned(bits) / 2 == Unsigned(init);
    }
  }

  /** How the converter would send a value. */
  function Word24(v: int): seq<bool>
    requires -SIGN_BIT <= v < SIGN_BIT
  {
    Bits(if v < 0 then v + WORD else v, 24)
  }

  /** Decoding undoes the converter's encoding, and the other way round: no two words read alike. */
  lemma DecodingRoundTrips(v: int, bits: seq<bool>)
    requires -SIGN_BIT <= v < SIGN_BIT && |bits| == 24
    ensures Signed(Word24(v)) == v
    ensures Word24(Signed(bits)) == bits
  {
    PowersOfTheWord();
    var u := if v < 0 then v + WORD else v;
    var w := Word24(v);
    BitsRoundTrip(u, 24);
    UnsignedSplit(w);
    UnsignedRange(w[1..]);
    UnsignedSplit(bits);
    UnsignedRange(bits[1..]);
    UnsignedRoundTrip(bits);
  }

  /** The shift loop, in 32-bit arithmetic; a converter that is not ready gives nothing. */
  method ReadRawOnce(ready: bool, bits: seq<bool>) returns (raw: Option<int32>)
    requires |bits| == 24
    ensures raw.Some? <==> ready
    ensures ready ==> raw.value as int == Signed(bits)
  {
    if !ready {
      return None;
    }
    PowersOfTheWord();
    var value: int32 := 0;
    for i := 0 to 24
      invariant value as int == Unsigned(bits[..i]) < WORD
    {
      PrefixIsSmall(bits[..i], 23);
      assert bits[..i + 1][..i] == bits[..i];
      value := value * 2 + if bits[i] then 1 else 0;
    }
    assert bits[..24] == bits;
    UnsignedSplit(bits);
    UnsignedRange(bits[1..]);
    if value / 0x80_0000 % 2 == 1 {
      value := value - 0x100_0000;
    }
    return Some(value);
  }
}
