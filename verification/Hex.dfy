/** `encoding/hex`: lower-case encoding, case-insensitive decoding. Text is ASCII bytes. */
module Hex {
  import opened Prelude

  function Digit(n: int): Byte
    requires 0 <= n < 16
  {
    if n < 10 then 48 + n else 87 + n
  }

  /** The value of a hex digit of either case, or -1. */
  function Nibble(c: Byte): (n: int)
    ensures -1 <= n < 16
  {
    if 48 <= c <= 57 then c - 48
    else if 97 <= c <= 102 then c - 87
    else if 65 <= c <= 70 then c - 55
    else -1
  }

  predicate AllHex(s: Bytes) { forall i :: 0 <= i < |s| ==> Nibble(s[i]) >= 0 }

  function Encode(b: Bytes): (s: Bytes)
    ensures |s| == 2 * |b|
  {
    if b == [] then [] else [Digit(b[0] / 16), Digit(b[0] % 16)] + Encode(b[1..])
  }

  function Decode(s: Bytes): (b: Option<Bytes>)
    ensures b.Some? ==> |s| == 2 * |b.value|
    decreases |s|
  {
    if s == [] then Some([])
    else if |s| == 1 || Nibble(s[0]) < 0 || Nibble(s[1]) < 0 then None
    else
      var rest := Decode(s[2..]);
      if rest.None? then None else Some([16 * Nibble(s[0]) + Nibble(s[1])] + rest.value)
  }

  lemma {:induction false} DecodeEncode(b: Bytes)
    ensures Decode(Encode(b)) == Some(b)
  {
    if b != [] {
      DecodeEncode(b[1..]);
      var s := Encode(b);
      assert s[2..] == Encode(b[1..]);
      assert Nibble(s[0]) == b[0] / 16 && Nibble(s[1]) == b[0] % 16;
      assert [b[0]] + b[1..] == b;
    }
  }

  lemma {:induction false} DecodeDefined(s: Bytes)
    ensures Decode(s).Some? <==> |s| % 2 == 0 && AllHex(s)
    decreases |s|
  {
    if |s| >= 2 {
      DecodeDefined(s[2..]);
      assert forall i :: 2 <= i < |s| ==> s[i] == s[2..][i - 2];
      if AllHex(s[2..]) && Nibble(s[0]) >= 0 && Nibble(s[1]) >= 0 {
        forall i | 0 <= i < |s|
          ensures Nibble(s[i]) >= 0
        {
          if i >= 2 {
            assert Nibble(s[2..][i - 2]) >= 0;
          }
        }
      }
    }
  }

  lemma EncodeInjective(a: Bytes, b: Bytes)
    requires Encode(a) == Encode(b)
    ensures a == b
  {
    DecodeEncode(a);
    DecodeEncode(b);
  }

  /** Only digits and a to f. */
  predicate LowerHex(s: Bytes) { forall i :: 0 <= i < |s| ==> 48 <= s[i] <= 57 || 97 <= s[i] <= 102 }

  lemma {:induction false} EncodeDecode(s: Bytes)
    requires LowerHex(s) && |s| % 2 == 0
    ensures Decode(s).Some? && Encode(Decode(s).value) == s
    decreases |s|
  {
    if |s| >= 2 {
      assert forall i :: 0 <= i < |s| - 2 ==> s[2..][i] == s[i + 2];
      EncodeDecode(s[2..]);
      var b := Decode(s).value;
      assert b[1..] == Decode(s[2..]).value;
      assert s == [s[0], s[1]] + s[2..];
    }
  }

  lemma {:induction false} EncodeLower(b: Bytes)
    ensures LowerHex(Encode(b))
  {
    if b != [] {
      EncodeLower(b[1..]);
    }
  }
}
