/**
 * HMAC-MD5 as the HNAP login uses it: the device and the client both compute
 * `hmac.new(key, message, md5).hexdigest().upper()`. The MD5 compression
 * function itself is not modelled: a digest function is any function from key
 * and message to 32 lowercase hexadecimal digits, and the code under study is
 * proved for every such function.
 */
module Md5 {
  import opened Text

  predicate IsLowerHexDigit(c: char) {
    IsDigit(c) || 'a' <= c <= 'f'
  }

  predicate IsUpperHexDigit(c: char) {
    IsDigit(c) || 'A' <= c <= 'F'
  }

  /** What `hexdigest()` of an MD5-based HMAC returns. */
  predicate IsLowerHexDigest(s: string) {
    |s| == 32 && forall i :: 0 <= i < |s| ==> IsLowerHexDigit(s[i])
  }

  /** What `hexdigest().upper()` returns. */
  predicate IsUpperHexDigest(s: string) {
    |s| == 32 && forall i :: 0 <= i < |s| ==> IsUpperHexDigit(s[i])
  }

  const ZeroDigest: string := "00000000000000000000000000000000"

  /** `hmac.new(key.encode(), message.encode(), hashlib.md5).hexdigest()`. */
  type HexDigest = f: (string, string) -> string | forall key, message :: IsLowerHexDigest(f(key, message))
    witness (key: string, message: string) => ZeroDigest

  /** The uppercase HMAC-MD5 that both the JSON HNAP builder and the MB8600 parser compute. */
  function HmacMd5Upper(h: HexDigest, key: string, message: string): string {
    Upper(h(key, message))
  }

  /** The uppercase digest has 32 uppercase hexadecimal digits, and lower-casing it gives back `hexdigest()`. */
  lemma HmacMd5UpperShape(h: HexDigest, key: string, message: string)
    ensures var r := HmacMd5Upper(h, key, message);
      IsUpperHexDigest(r) && forall i :: 0 <= i < 32 ==> LowerChar(r[i]) == h(key, message)[i]
  {
    var d := h(key, message);
    assert IsLowerHexDigest(d);
    forall i | 0 <= i < 32 ensures IsUpperHexDigit(UpperChar(d[i])) && LowerChar(UpperChar(d[i])) == d[i] {
      assert IsLowerHexDigit(d[i]);
    }
  }

  /** The uppercase digest is 32 uppercase hexadecimal digits. */
  lemma HmacMd5UpperIsDigest(h: HexDigest, key: string, message: string)
    ensures IsUpperHexDigest(HmacMd5Upper(h, key, message))
  {
    HmacMd5UpperShape(h, key, message);
  }

  /** A digest is never empty and never contains whitespace, so it can stand as a key and as a header field. */
  lemma DigestIsWord(d: string)
    requires IsUpperHexDigest(d)
    ensures d != "" && forall i :: 0 <= i < |d| ==> !IsSpace(d[i])
  {
  }
}
