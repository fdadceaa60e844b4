/** Uppercase base16 (section 8 of RFC 4648) over bytes. */
module UpperHex {
  import opened Prelude

  function Nibble(b: byte): Option<byte> {
    if 48 <= b <= 57 then Some(b - 48)
    else if 65 <= b <= 70 then Some(b - 65 + 10)
    else None
  }

  function Digit(n: byte): byte
    requires n < 16
  {
    if n < 10 then 48 + n else 65 + n - 10
  }

  function Encode(s: Bytes): (r: Bytes)
    ensures |r| == 2 * |s|
  {
    if s == [] then [] else [Digit(s[0] / 16), Digit(s[0] % 16)] + Encode(s[1..])
  }

  /** Decode pairs from the front; a single trailing character is dropped. */
  function DecodePairs(v: Bytes): (r: Option<Bytes>)
    ensures r.Some? ==> |r.value| == |v| / 2
  {
    if |v| < 2 then Some([])
    else
      match (Nibble(v[0]), Nibble(v[1]), DecodePairs(v[2..]))
      case (Some(high), Some(low), Some(rest)) => Some([high * 16 + low] + rest)
      case _ => None
  }

  /** The stricter decoder: an odd number of characters is an error. */
  function DecodeExact(v: Bytes): Option<Bytes> {
    if |v| % 2 != 0 then None else DecodePairs(v)
  }

  predicate IsHexDigit(b: byte) {
    IsDigit(b) || 65 <= b <= 70
  }

  predicate IsCanonical(v: Bytes) {
    |v| % 2 == 0 && forall i :: 0 <= i < |v| ==> IsHexDigit(v[i])
  }

  lemma NibbleOfDigit(n: byte)
    requires n < 16
    ensures Nibble(Digit(n)) == Some(n) && IsHexDigit(Digit(n))
  {
  }

  lemma {:induction false} EncodeCanonical(s: Bytes)
    ensures IsCanonical(Encode(s)) && DecodeExact(Encode(s)) == Some(s)
  {
    if s != [] {
      EncodeCanonical(s[1..]);
      var v := Encode(s);
      assert v[2..] == Encode(s[1..]);
      NibbleOfDigit(s[0] / 16);
      NibbleOfDigit(s[0] % 16);
      assert forall i :: 2 <= i < |v| ==> v[i] == v[2..][i - 2];
      assert s == [s[0]] + s[1..];
    }
  }

  /** Canonical text is exactly the image of the encoder, and the two decoders agree on it. */
  lemma {:induction false} DecodeCanonical(v: Bytes)
    requires IsCanonical(v)
    ensures DecodeExact(v).Some? && DecodeExact(v) == DecodePairs(v) && Encode(DecodeExact(v).value) == v
  {
    if v != [] {
      assert IsHexDigit(v[0]) && IsHexDigit(v[1]);
      forall i | 0 <= i < |v| - 2 ensures IsHexDigit(v[2..][i]) { assert v[2..][i] == v[i + 2]; }
      DecodeCanonical(v[2..]);
      assert v == [v[0], v[1]] + v[2..];
      assert DecodePairs(v).value[1..] == DecodePairs(v[2..]).value;
    }
  }

  lemma EncodeInjective(a: Bytes, b: Bytes)
    requires Encode(a) == Encode(b)
    ensures a == b
  {
    EncodeCanonical(a);
    EncodeCanonical(b);
  }
}
