/** The last step of `sha256OfFile` (lib/hash.ts): each byte of the digest
    as two lowercase hex digits, zero-padded, concatenated.  This is the
    base16 alphabet of section 8 of RFC 4648 in lower case.  The digest
    itself (SHA-256) is computed outside the model. */
module HexDigest {
  newtype byte = x: int | 0 <= x < 256

  const Digits: string := "0123456789abcdef"

  predicate IsLowerHexDigit(c: char) {
    ('0' <= c <= '9') || ('a' <= c <= 'f')
  }

  /** `b.toString(16).padStart(2, '0')`. */
  function ByteToHex(b: byte): (s: string)
    ensures |s| == 2 && IsLowerHexDigit(s[0]) && IsLowerHexDigit(s[1])
  {
    [Digits[b as int / 16], Digits[b as int % 16]]
  }

  /** `hashArray.map(...).join('')`. */
  function ToHex(bytes: seq<byte>): (s: string)
    ensures |s| == 2 * |bytes|
    ensures forall i :: 0 <= i < |s| ==> IsLowerHexDigit(s[i])
  {
    if bytes == [] then ""
    else
      var rest := ToHex(bytes[1..]);
      assert forall i :: 2 <= i < 2 + |rest| ==> (ByteToHex(bytes[0]) + rest)[i] == rest[i - 2];
      ByteToHex(bytes[0]) + rest
  }

  /** The value of one lowercase hex digit. */
  function DigitValue(c: char): (v: int)
    requires IsLowerHexDigit(c)
    ensures 0 <= v < 16
  {
    if '0' <= c <= '9' then c as int - '0' as int else c as int - 'a' as int + 10
  }

  /** Reading the hex string back two digits at a time. */
  function FromHex(s: string): (bytes: seq<byte>)
    requires |s| % 2 == 0
    requires forall i :: 0 <= i < |s| ==> IsLowerHexDigit(s[i])
    ensures |bytes| == |s| / 2
  {
    if s == [] then []
    else [(16 * DigitValue(s[0]) + DigitValue(s[1])) as byte] + FromHex(s[2..])
  }

  lemma DigitRoundTrip(d: int)
    requires 0 <= d < 16
    ensures IsLowerHexDigit(Digits[d]) && DigitValue(Digits[d]) == d
  {
  }

  /** Each byte is its two digits: high nibble then low nibble. */
  lemma ByteRoundTrip(b: byte)
    ensures var s := ByteToHex(b); 16 * DigitValue(s[0]) + DigitValue(s[1]) == b as int
  {
    DigitRoundTrip(b as int / 16);
    DigitRoundTrip(b as int % 16);
  }

  /** Decoding the output pairwise recovers the bytes. */
  lemma {:induction false} HexRoundTrip(bytes: seq<byte>)
    ensures FromHex(ToHex(bytes)) == bytes
    decreases |bytes|
  {
    if bytes != [] {
      var s := ToHex(bytes);
      ByteRoundTrip(bytes[0]);
      assert s[2..] == ToHex(bytes[1..]);
      HexRoundTrip(bytes[1..]);
    }
  }

  /** A SHA-256 digest (32 bytes) gives 64 characters. */
  lemma Sha256HexLength(digest: seq<byte>)
    requires |digest| == 32
    ensures |ToHex(digest)| == 64
  {
  }
}
