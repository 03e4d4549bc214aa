/**
 * The HNAP_AUTH header shared by the JSON HNAP builder and the MB8600 parser:
 * `HMAC_MD5(key, timestamp + soap_action_uri).upper() + " " + timestamp`, where
 * the timestamp is the wall clock in milliseconds modulo 2 000 000 000 000.
 */
module HnapAuth {
  import opened Wrappers
  import opened Text
  import opened PyJson
  import opened PyNumbers
  import opened Md5

  const TimestampModulus: nat := 2000000000000

  /** The key signed with before any login has produced a private key. */
  const DefaultKey: string := "withoutloginkey"

  /** `int(time.time() * 1000) % 2000000000000` (the JSON builder). */
  function TruncatedTimestamp(now: real): (ts: nat)
    ensures ts < TimestampModulus
  {
    Truncate(now * 1000.0) % TimestampModulus
  }

  /** `round(time.time() * 1000) % 2000000000000` (the MB8600 parser). */
  function RoundedTimestamp(now: real): (ts: nat)
    ensures ts < TimestampModulus
  {
    RoundHalfEven(now * 1000.0) % TimestampModulus
  }

  /** `f'"{namespace}{action}"'`: the SOAPAction header value. */
  function SoapActionUri(namespace: string, action: string): string {
    "\"" + namespace + action + "\""
  }

  /** The HNAP_AUTH header for `action` signed with `key` at timestamp `ts`. */
  function AuthHeader(h: HexDigest, key: string, namespace: string, action: string, ts: nat): string {
    HmacMd5Upper(h, key, Decimal(ts) + SoapActionUri(namespace, action)) + " " + Decimal(ts)
  }

  /** The header is the 32-digit signature, a space, and the decimal timestamp. */
  lemma AuthHeaderShape(h: HexDigest, key: string, namespace: string, action: string, ts: nat)
    ensures var header := AuthHeader(h, key, namespace, action, ts);
      && |header| == 33 + |Decimal(ts)|
      && header[..32] == HmacMd5Upper(h, key, Decimal(ts) + SoapActionUri(namespace, action))
      && header[32] == ' ' && header[33..] == Decimal(ts)
  {
    HmacMd5UpperShape(h, key, Decimal(ts) + SoapActionUri(namespace, action));
  }

  /** The device reads the timestamp back from the header: the text after the space is `ts`. */
  lemma AuthHeaderTimestamp(h: HexDigest, key: string, namespace: string, action: string, ts: nat)
    ensures var header := AuthHeader(h, key, namespace, action, ts);
      Split(header, " ") == [header[..32], Decimal(ts)] && ParseInt(header[33..]) == Some(ts)
  {
    var header := AuthHeader(h, key, namespace, action, ts);
    AuthHeaderShape(h, key, namespace, action, ts);
    var digest := header[..32];
    HmacMd5UpperShape(h, key, Decimal(ts) + SoapActionUri(namespace, action));
    DigestIsWord(digest);
    assert ' ' !in digest;
    assert ' ' !in Decimal(ts);
    assert header == Join([digest, Decimal(ts)], " ");
    SplitJoin([digest, Decimal(ts)], ' ');
    ParseIntText(ts);
  }

  /** The two clocks agree to within one millisecond: rounding can only move a reading up by one. */
  lemma TimestampsWithinOne(now: real)
    requires now >= 0.0
    ensures RoundedTimestamp(now) == TruncatedTimestamp(now)
         || RoundedTimestamp(now) == (TruncatedTimestamp(now) + 1) % TimestampModulus
  {
    var x := now * 1000.0;
    var t := Truncate(x);
    var r := RoundHalfEven(x);
    assert r == t || r == t + 1;
  }
}
