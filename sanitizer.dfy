/**
 * Redaction of personal data in HTTP Archive (HAR) captures: the
 * sensitive-field test, header and cookie redaction, form-urlencoded and
 * JSON body redaction, the walk over requests, responses and pages, and the
 * default output file name. The HTML redaction chain and `json.loads` /
 * `json.dumps` are parameters.
 */
module Sanitizer {
  import opened Wrappers
  import opened Text
  import opened PyJson

  const Redacted: string := "[REDACTED]"

  /** Header names whose values are redacted, compared in lower case. */
  const SensitiveHeaders: set<string> :=
    {"authorization", "cookie", "set-cookie", "x-auth-token", "x-api-key", "x-session-id", "x-csrf-token"}

  /** The alternatives of the sensitive-field pattern, all plain lower-case text. */
  const SensitiveFieldPatterns: seq<string> :=
    ["password", "passwd", "pwd", "pass", "secret", "token", "key", "auth", "credential", "apikey", "api_key"]

  /** `is_sensitive_field`: some alternative occurs somewhere in the name, ignoring ASCII case. */
  predicate IsSensitiveField(name: string) {
    exists i :: 0 <= i < |SensitiveFieldPatterns| && Contains(Lower(name), SensitiveFieldPatterns[i])
  }

  /** The long alternatives that contain a shorter one. */
  lemma LongPatternsContainShort()
    ensures Contains("password", "pass") && Contains("passwd", "pass")
    ensures Contains("apikey", "key") && Contains("api_key", "key")
  {
    ContainsAt("password", "pass", 0);
    ContainsAt("passwd", "pass", 0);
    ContainsAt("apikey", "key", 3);
    ContainsAt("api_key", "key", 4);
  }

  /** The seven alternatives that the other four contain. */
  predicate CoreSensitive(l: string) {
    || Contains(l, "pwd") || Contains(l, "pass") || Contains(l, "secret")
    || Contains(l, "token") || Contains(l, "key") || Contains(l, "auth")
    || Contains(l, "credential")
  }

  /** Each alternative occurring in `l` makes one of the seven occur. */
  lemma PatternIsCore(l: string, i: nat)
    requires i < |SensitiveFieldPatterns| && Contains(l, SensitiveFieldPatterns[i])
    ensures CoreSensitive(l)
  {
    var p := SensitiveFieldPatterns[i];
    if i == 0 || i == 1 || i == 9 || i == 10 {
      LongPatternsContainShort();
      if i <= 1 {
        ContainsTrans(l, p, "pass");
      } else {
        ContainsTrans(l, p, "key");
      }
    }
  }

  /** Each of the seven is itself an alternative. */
  lemma CoreIsPattern(l: string) returns (i: nat)
    requires CoreSensitive(l)
    ensures i < |SensitiveFieldPatterns| && Contains(l, SensitiveFieldPatterns[i])
  {
    var ps := SensitiveFieldPatterns;
    if Contains(l, "pwd") {
      i := 2;
    } else if Contains(l, "pass") {
      i := 3;
    } else if Contains(l, "secret") {
      i := 4;
    } else if Contains(l, "token") {
      i := 5;
    } else if Contains(l, "key") {
      i := 6;
    } else if Contains(l, "auth") {
      i := 7;
    } else {
      i := 8;
    }
  }

  /** Seven of the eleven alternatives decide the test: the other four contain "pass" or "key". */
  lemma SensitiveFieldCore(name: string)
    ensures IsSensitiveField(name) <==> CoreSensitive(Lower(name))
  {
    var l := Lower(name);
    var ps := SensitiveFieldPatterns;
    if IsSensitiveField(name) {
      var i :| 0 <= i < |ps| && Contains(l, ps[i]);
      PatternIsCore(l, i);
    }
    if CoreSensitive(l) {
      var i := CoreIsPattern(l);
    }
  }

  /** The test does not depend on the case of ASCII letters. */
  lemma SensitiveFieldIgnoresCase(name: string)
    ensures IsSensitiveField(Lower(name)) == IsSensitiveField(name)
  {
    LowerIdempotent(name);
  }

  // ---- Cookies ----

  /** `[^=;\s]`: a character of a cookie name. */
  predicate NameChar(c: char) {
    c != '=' && c != ';' && !IsSpace(c)
  }

  /** The length of the longest run of cookie-name characters at the front. */
  function NameRun(s: string): (n: nat)
    ensures n <= |s|
  {
    if |s| > 0 && NameChar(s[0]) then 1 + NameRun(s[1..]) else 0
  }

  /** The length of the longest run without `;` at the front. */
  function ValueRun(s: string): (n: nat)
    ensures n <= |s|
  {
    if |s| > 0 && s[0] != ';' then 1 + ValueRun(s[1..]) else 0
  }

  /**
   * `re.sub(r"([^=;\s]+)=([^;]*)", lambda m: f"{m.group(1)}=[REDACTED]", s)`:
   * scanning from the left, a name run followed by `=` is a match whose value
   * runs to the next `;`; anywhere else one character is kept and the scan moves on.
   */
  function RedactCookies(s: string): string
    decreases |s|
  {
    if |s| == 0 then ""
    else
      var n := NameRun(s);
      if 0 < n < |s| && s[n] == '=' then
        var rest := s[n + 1..];
        s[..n] + ("=" + Redacted + RedactCookies(rest[ValueRun(rest)..]))
      else [s[0]] + RedactCookies(s[1..])
  }

  lemma {:induction false} NameRunChars(s: string)
    ensures forall i :: 0 <= i < NameRun(s) ==> NameChar(s[i])
  {
    if |s| > 0 && NameChar(s[0]) {
      NameRunChars(s[1..]);
    }
  }

  lemma {:induction false} ValueRunStops(s: string)
    ensures ValueRun(s) < |s| ==> s[ValueRun(s)] == ';'
  {
    if |s| > 0 && s[0] != ';' {
      ValueRunStops(s[1..]);
    }
  }

  lemma {:induction false} NameRunPrefix(a: string, b: string)
    requires forall i :: 0 <= i < |a| ==> NameChar(a[i])
    requires |b| > 0 && !NameChar(b[0])
    ensures NameRun(a + b) == |a|
  {
    if |a| > 0 {
      assert (a + b)[1..] == a[1..] + b;
      NameRunPrefix(a[1..], b);
    }
  }

  lemma {:induction false} ValueRunPrefix(a: string, b: string)
    requires forall i :: 0 <= i < |a| ==> a[i] != ';'
    requires |b| == 0 || b[0] == ';'
    ensures ValueRun(a + b) == |a|
  {
    if |a| > 0 {
      assert (a + b)[1..] == a[1..] + b;
      ValueRunPrefix(a[1..], b);
    } else {
      assert a + b == b;
    }
  }

  /** Text that is empty or starts at a `;` stays so. */
  lemma RedactCookiesAtSemicolon(s: string)
    requires |s| == 0 || s[0] == ';'
    ensures |RedactCookies(s)| == 0 || RedactCookies(s)[0] == ';'
  {
  }

  /** Where the scan finds a match at the front. */
  lemma RedactCookiesMatch(s: string)
    requires 0 < NameRun(s) < |s| && s[NameRun(s)] == '='
    ensures var n := NameRun(s);
      var rest := s[n + 1..];
      RedactCookies(s) == s[..n] + ("=" + Redacted + RedactCookies(rest[ValueRun(rest)..]))
  {
  }

  /** A match at the front whose value ends where `tail` starts. */
  lemma RedactCookiesMatchAt(s: string, n: nat, tail: string)
    requires 0 < n < |s| && NameRun(s) == n && s[n] == '='
    requires s[n + 1..][ValueRun(s[n + 1..])..] == tail
    ensures RedactCookies(s) == s[..n] + ("=" + Redacted + RedactCookies(tail))
  {
    RedactCookiesMatch(s);
  }

  /** Where the scan keeps the first character. */
  lemma RedactCookiesCopy(s: string)
    requires |s| > 0 && !(0 < NameRun(s) < |s| && s[NameRun(s)] == '=')
    ensures RedactCookies(s) == [s[0]] + RedactCookies(s[1..])
  {
  }

  /** What the scan keeps of the leading name run and the character after it. */
  predicate KeepsRun(s: string, r: string) {
    var n := NameRun(s);
    && NameRun(r) == n && n <= |r| && r[..n] == s[..n]
    && (n < |s| ==> n < |r| && r[n] == s[n])
    && (n == |s| ==> |r| == n)
  }

  lemma KeepsRunAtMatch(s: string)
    requires 0 < NameRun(s) < |s| && s[NameRun(s)] == '='
    ensures KeepsRun(s, RedactCookies(s))
  {
    var n := NameRun(s);
    RedactCookiesMatch(s);
    var rest := s[n + 1..];
    var after := "=" + Redacted + RedactCookies(rest[ValueRun(rest)..]);
    NameRunChars(s);
    NameRunPrefix(s[..n], after);
    assert RedactCookies(s) == s[..n] + after;
  }

  lemma KeepsRunAtCopy(s: string, r: string, r1: string)
    requires 0 < NameRun(s) && !(NameRun(s) < |s| && s[NameRun(s)] == '=')
    requires r == [s[0]] + r1 && KeepsRun(s[1..], r1)
    ensures KeepsRun(s, r)
  {
    var n := NameRun(s);
    assert n == 1 + NameRun(s[1..]);
    assert NameRun(r) == n by {
      assert r[1..] == r1;
    }
    assert r[..n] == s[..n] by {
      assert r[..n] == [s[0]] + r1[..n - 1];
      assert s[..n] == [s[0]] + s[1..][..n - 1];
    }
  }

  /** Redaction keeps the leading name run and the character after it. */
  lemma {:induction false} RedactCookiesKeepsRun(s: string)
    ensures KeepsRun(s, RedactCookies(s))
    decreases |s|
  {
    var n := NameRun(s);
    if |s| > 0 {
      if 0 < n < |s| && s[n] == '=' {
        KeepsRunAtMatch(s);
      } else {
        RedactCookiesCopy(s);
        if n > 0 {
          RedactCookiesKeepsRun(s[1..]);
          KeepsRunAtCopy(s, RedactCookies(s), RedactCookies(s[1..]));
        }
      }
    }
  }

  /** How the scan sees `name=value` followed by text that starts at a `;`. */
  lemma PairShape(name: string, value: string, rest: string)
    requires |name| > 0 && forall i :: 0 <= i < |name| ==> NameChar(name[i])
    requires forall i :: 0 <= i < |value| ==> value[i] != ';'
    requires |rest| == 0 || rest[0] == ';'
    ensures var s := name + ("=" + value + rest);
      && NameRun(s) == |name| && s[..|name|] == name && s[|name|] == '='
      && s[|name| + 1..][ValueRun(s[|name| + 1..])..] == rest
  {
    var s := name + ("=" + value + rest);
    NameRunPrefix(name, "=" + value + rest);
    assert s[|name| + 1..] == value + rest;
    ValueRunPrefix(value, rest);
  }

  /** A `name=value` pair keeps its name and loses its value; what follows from the next `;` on is redacted the same way. */
  lemma RedactCookiePair(name: string, value: string, rest: string)
    requires |name| > 0 && forall i :: 0 <= i < |name| ==> NameChar(name[i])
    requires forall i :: 0 <= i < |value| ==> value[i] != ';'
    requires |rest| == 0 || rest[0] == ';'
    ensures RedactCookies(name + ("=" + value + rest)) == name + ("=" + Redacted + RedactCookies(rest))
  {
    PairShape(name, value, rest);
    RedactCookiesMatchAt(name + ("=" + value + rest), |name|, rest);
  }

  /** Redacting twice is redacting once. */
  lemma {:induction false} RedactCookiesIdempotent(s: string)
    ensures RedactCookies(RedactCookies(s)) == RedactCookies(s)
    decreases |s|
  {
    if |s| > 0 {
      var n := NameRun(s);
      if 0 < n < |s| && s[n] == '=' {
        var rest := s[n + 1..];
        var left := rest[ValueRun(rest)..];
        RedactCookiesIdempotent(left);
        IdempotentAtMatch(s, n, rest, left);
      } else {
        RedactCookiesIdempotent(s[1..]);
        IdempotentAtCopy(s);
      }
    }
  }

  /** The match step of RedactCookiesIdempotent, given idempotence on what follows the value. */
  lemma IdempotentAtMatch(s: string, n: nat, rest: string, left: string)
    requires n == NameRun(s) && 0 < n < |s| && s[n] == '='
    requires rest == s[n + 1..] && left == rest[ValueRun(rest)..]
    requires RedactCookies(RedactCookies(left)) == RedactCookies(left)
    ensures RedactCookies(RedactCookies(s)) == RedactCookies(s)
  {
    var name := s[..n];
    var t := RedactCookies(left);
    RedactCookiesMatch(s);
    assert RedactCookies(s) == name + ("=" + Redacted + t);
    NameRunChars(s);
    assert forall i :: 0 <= i < |name| ==> NameChar(name[i]);
    ValueRunStops(rest);
    RedactCookiesAtSemicolon(left);
    RedactedLacksSemicolon();
    RedactCookiePair(name, Redacted, t);
  }

  lemma RedactedLacksSemicolon()
    ensures forall i :: 0 <= i < |Redacted| ==> Redacted[i] != ';'
  {
  }

  /** The copy step of RedactCookiesIdempotent, given idempotence on the rest of the text. */
  lemma IdempotentAtCopy(s: string)
    requires |s| > 0 && !(0 < NameRun(s) < |s| && s[NameRun(s)] == '=')
    requires RedactCookies(RedactCookies(s[1..])) == RedactCookies(s[1..])
    ensures RedactCookies(RedactCookies(s)) == RedactCookies(s)
  {
    var r := RedactCookies(s);
    RedactCookiesCopy(s);
    RedactCookiesKeepsRun(s);
    assert KeepsRun(s, r);
    assert r[1..] == RedactCookies(s[1..]);
    RedactCookiesCopy(r);
  }

  /** `sanitize_header_value(name, value)`. */
  function SanitizeHeaderValue(name: string, value: string): string {
    if Lower(name) in SensitiveHeaders then
      if Lower(name) == "cookie" || Lower(name) == "set-cookie" then RedactCookies(value)
      else Redacted
    else value
  }

  /** Sanitizing a header value twice changes nothing more. */
  lemma SanitizeHeaderValueIdempotent(name: string, value: string)
    ensures SanitizeHeaderValue(name, SanitizeHeaderValue(name, value)) == SanitizeHeaderValue(name, value)
  {
    RedactCookiesIdempotent(value);
  }

  // ---- Form bodies ----

  /** One `&`-separated part: a sensitive `key=value` pair, split at the first `=`, gets the value "[REDACTED]". */
  function SanitizePair(pair: string): string {
    match Find(pair, "=")
    case None => pair
    case Some(i) =>
      var key := pair[..i];
      if IsSensitiveField(key) then key + "=" + Redacted else key + "=" + pair[i + 1..]
  }

  function SanitizedPairs(parts: seq<string>): (r: seq<string>)
    ensures |r| == |parts|
  {
    seq(|parts|, i requires 0 <= i < |parts| => SanitizePair(parts[i]))
  }

  /** What `_sanitize_form_urlencoded(text)` returns. */
  function FormSanitized(text: string): string {
    Join(SanitizedPairs(Split(text, "&")), "&")
  }

  /** `_sanitize_form_urlencoded(text)`. */
  method SanitizeFormUrlencoded(text: string) returns (r: string)
    ensures r == FormSanitized(text)
  {
    var parts := Split(text, "&");
    var pairs: seq<string> := [];
    var i := 0;
    while i < |parts|
      invariant i <= |parts| && |pairs| == i
      invariant forall k :: 0 <= k < i ==> pairs[k] == SanitizePair(parts[k])
    {
      var next := SanitizePart(parts[i]);
      pairs := pairs + [next];
      i := i + 1;
    }
    SamePointwise(pairs, SanitizedPairs(parts));
    r := Join(pairs, "&");
  }

  /** One pass of the part loop: the key is kept and a sensitive key's value replaced. */
  method SanitizePart(pair: string) returns (next: string)
    ensures next == SanitizePair(pair)
  {
    next := pair;
    var eq := Find(pair, "=");
    if eq.Some? {
      var key := pair[..eq.value];
      var value := pair[eq.value + 1..];
      if IsSensitiveField(key) {
        value := Redacted;
      }
      next := key + "=" + value;
    }
  }

  /** A part is left as it is exactly when it has no `=`, its key is not sensitive, or its value is already "[REDACTED]". */
  lemma SanitizePairFixed(pair: string)
    ensures SanitizePair(pair) == pair <==>
      match Find(pair, "=")
      case None => true
      case Some(i) => !IsSensitiveField(pair[..i]) || pair[i + 1..] == Redacted
  {
    match Find(pair, "=")
    case None =>
    case Some(i) =>
      assert pair == pair[..i] + "=" + pair[i + 1..];
      if IsSensitiveField(pair[..i]) && SanitizePair(pair) == pair {
        assert (pair[..i] + "=" + Redacted)[i + 1..] == Redacted;
      }
  }

  lemma SanitizePairIdempotent(pair: string)
    ensures SanitizePair(SanitizePair(pair)) == SanitizePair(pair)
  {
    match Find(pair, "=")
    case None =>
    case Some(i) =>
      var key := pair[..i];
      assert pair == key + "=" + pair[i + 1..];
      if IsSensitiveField(key) {
        assert '=' !in key by {
          if '=' in key {
            var j :| 0 <= j < |key| && key[j] == '=';
            assert StartsWith(pair[j..], "=");
          }
        }
        FindCharAfterPrefix(key, '=', Redacted);
        var p := key + "=" + Redacted;
        assert p[..|key|] == key && p[|key| + 1..] == Redacted;
        SanitizePairFixed(p);
      }
  }

  lemma SanitizePairLacks(pair: string, c: char)
    requires c !in pair && c != '=' && c !in Redacted
    ensures c !in SanitizePair(pair)
  {
    match Find(pair, "=")
    case None =>
    case Some(i) =>
      assert pair == pair[..i] + "=" + pair[i + 1..];
  }

  /** The sanitized text has as many `&`-separated parts as the input, each the sanitized input part. */
  lemma FormSanitizedParts(text: string)
    ensures Split(FormSanitized(text), "&") == SanitizedPairs(Split(text, "&"))
  {
    var parts := Split(text, "&");
    SplitPiecesLackSeparator(text, '&');
    forall i | 0 <= i < |parts| ensures '&' !in SanitizedPairs(parts)[i] {
      SanitizePairLacks(parts[i], '&');
    }
    SplitJoin(SanitizedPairs(parts), '&');
  }

  /** Sanitizing a form body twice changes nothing more. */
  lemma FormSanitizedIdempotent(text: string)
    ensures FormSanitized(FormSanitized(text)) == FormSanitized(text)
  {
    var parts := Split(text, "&");
    FormSanitizedParts(text);
    var once := SanitizedPairs(parts);
    forall i | 0 <= i < |once| ensures SanitizedPairs(once)[i] == once[i] {
      SanitizePairIdempotent(parts[i]);
    }
    assert SanitizedPairs(once) == once;
  }

  // ---- JSON bodies ----

  /** `_sanitize_json_recursive(data)`. */
  function SanitizeJson(j: Json): (r: Json)
    ensures j.JObj? ==> r.JObj? && Keys(r.members) == Keys(j.members)
    ensures j.JArr? ==> r.JArr? && |r.items| == |j.items|
    ensures !j.JObj? && !j.JArr? ==> r == j
    decreases j
  {
    match j
    case JObj(members) =>
      JObj(seq(|members|, i requires 0 <= i < |members| =>
        (members[i].0,
         if IsSensitiveField(members[i].0) && members[i].1.JStr? then JStr(Redacted)
         else SanitizeJson(members[i].1))))
    case JArr(items) =>
      JArr(seq(|items|, i requires 0 <= i < |items| => SanitizeJson(items[i])))
    case _ => j
  }

  /** No string sits under a sensitive key anywhere in the value unless it is "[REDACTED]". */
  predicate Clean(j: Json)
    decreases j
  {
    match j
    case JObj(members) =>
      forall i :: 0 <= i < |members| ==>
        if IsSensitiveField(members[i].0) && members[i].1.JStr? then members[i].1 == JStr(Redacted)
        else Clean(members[i].1)
    case JArr(items) => forall i :: 0 <= i < |items| ==> Clean(items[i])
    case _ => true
  }

  lemma {:induction false} SanitizeJsonCleans(j: Json)
    ensures Clean(SanitizeJson(j))
    decreases j
  {
    match j
    case JObj(members) =>
      var r := SanitizeJson(j);
      forall i | 0 <= i < |members| && !(IsSensitiveField(members[i].0) && members[i].1.JStr?)
        ensures Clean(r.members[i].1)
      {
        SanitizeJsonCleans(members[i].1);
        if IsSensitiveField(members[i].0) {
          assert !SanitizeJson(members[i].1).JStr?;
        }
      }
    case JArr(items) =>
      forall i | 0 <= i < |items| ensures Clean(SanitizeJson(items[i])) {
        SanitizeJsonCleans(items[i]);
      }
    case _ =>
  }

  lemma {:induction false} CleanUnchanged(j: Json)
    requires Clean(j)
    ensures SanitizeJson(j) == j
    decreases j
  {
    match j
    case JObj(members) =>
      forall i | 0 <= i < |members| ensures SanitizeJson(j).members[i] == members[i] {
        if !(IsSensitiveField(members[i].0) && members[i].1.JStr?) {
          CleanUnchanged(members[i].1);
        }
      }
    case JArr(items) =>
      forall i | 0 <= i < |items| ensures SanitizeJson(items[i]) == items[i] {
        CleanUnchanged(items[i]);
      }
    case _ =>
  }

  /** The values the recursive sanitizer leaves alone are exactly the clean ones, so it is idempotent. */
  lemma SanitizeJsonFixedPoints(j: Json)
    ensures SanitizeJson(j) == j <==> Clean(j)
    ensures SanitizeJson(SanitizeJson(j)) == SanitizeJson(j)
  {
    SanitizeJsonCleans(j);
    if Clean(j) {
      CleanUnchanged(j);
    }
    CleanUnchanged(SanitizeJson(j));
  }

  // ---- The HAR walk ----

  /** The library calls the walk makes: `json.loads`, `json.dumps` and `sanitize_html`. */
  datatype Library = Library(
    loads: string -> Option<Json>,
    dumps: Json -> string,
    sanitizeHtml: string -> string)

  /** The TypeError raised when a regular expression is applied to a value that is not a string. */
  function NotText(j: Json): Exception {
    Exception(TypeError, "expected string or bytes-like object, got '" + TypeName(j) + "'")
  }

  /** The TypeError `json.loads` raises for a value that is not a string. */
  function NotJsonText(j: Json): Exception {
    Exception(TypeError, "the JSON object must be str, bytes or bytearray, not " + TypeName(j))
  }

  /** `container[key] = value` for a string key. */
  function SetKey(container: Json, key: string, value: Json): Result<Json, Exception> {
    match container
    case JObj(members) => Success(JObj(SetItem(members, key, value)))
    case JArr(_) => Failure(Exception(TypeError, "list indices must be integers or slices, not str"))
    case _ => Failure(Exception(TypeError, "'" + TypeName(container) + "' object does not support item assignment"))
  }

  /** `[f(x) for x in xs]`, or the first exception `f` raises. */
  function MapAll(f: Json -> Result<Json, Exception>, xs: seq<Json>): Result<seq<Json>, Exception> {
    if |xs| == 0 then Success([])
    else
      var init :- MapAll(f, xs[..|xs| - 1]);
      var last :- f(xs[|xs| - 1]);
      Success(init + [last])
  }

  /** The comprehension succeeds iff every call does, and then holds each call's result in order. */
  lemma {:induction false} MapAllShape(f: Json -> Result<Json, Exception>, xs: seq<Json>)
    ensures MapAll(f, xs).Success? <==> forall i :: 0 <= i < |xs| ==> f(xs[i]).Success?
    ensures MapAll(f, xs).Success? ==>
      |MapAll(f, xs).value| == |xs| && forall i :: 0 <= i < |xs| ==> MapAll(f, xs).value[i] == f(xs[i]).value
  {
    if |xs| > 0 {
      var init := xs[..|xs| - 1];
      MapAllShape(f, init);
      if MapAll(f, init).Success? && f(xs[|xs| - 1]).Success? {
        assert forall i :: 0 <= i < |init| ==> xs[i] == init[i];
      } else if MapAll(f, init).Failure? {
        var i :| 0 <= i < |init| && f(init[i]).Failure?;
        assert xs[i] == init[i];
      }
    }
  }

  /** Once a prefix fails, the whole comprehension fails with the same exception. */
  lemma {:induction false} MapAllPrefixFails(f: Json -> Result<Json, Exception>, xs: seq<Json>, k: nat)
    requires k <= |xs| && MapAll(f, xs[..k]).Failure?
    ensures MapAll(f, xs) == MapAll(f, xs[..k])
    decreases |xs| - k
  {
    if k < |xs| {
      assert xs[..k + 1][..k] == xs[..k];
      MapAllPrefixFails(f, xs, k + 1);
    } else {
      assert xs[..k] == xs;
    }
  }

  /** One header entry: a dict with "name" and "value" gets its value sanitized. */
  function SanitizeHeader(h: Json): Result<Json, Exception> {
    if h.JObj? && "name" in Keys(h.members) && "value" in Keys(h.members) then
      var name := Get(h.members, "name", JNull);
      var value := Get(h.members, "value", JNull);
      if !name.JStr? then Failure(NoAttribute(name, "lower"))
      else
        var lower := Lower(name.s);
        if value.JStr? then Success(JObj(SetItem(h.members, "value", JStr(SanitizeHeaderValue(name.s, value.s)))))
        else if lower == "cookie" || lower == "set-cookie" then Failure(NotText(value))
        else if lower in SensitiveHeaders then Success(JObj(SetItem(h.members, "value", JStr(Redacted))))
        else Success(JObj(SetItem(h.members, "value", value)))
    else Success(h)
  }

  /** `_sanitize_headers(headers)`, on the list's items. */
  method SanitizeHeaders(headers: seq<Json>) returns (r: Result<seq<Json>, Exception>)
    ensures r == MapAll(SanitizeHeader, headers)
  {
    var done: seq<Json> := [];
    var i := 0;
    while i < |headers|
      invariant i <= |headers| && MapAll(SanitizeHeader, headers[..i]) == Success(done)
    {
      assert headers[..i + 1][..i] == headers[..i];
      var h := SanitizeHeader(headers[i]);
      if h.Failure? {
        MapAllPrefixFails(SanitizeHeader, headers, i + 1);
        return Failure(h.error);
      }
      done := done + [h.value];
      i := i + 1;
    }
    assert headers[..i] == headers;
    r := Success(done);
  }

  /** `if "headers" in obj and isinstance(obj["headers"], list): _sanitize_headers(obj["headers"])`. */
  function HeadersIn(obj: Json): Result<Json, Exception> {
    var present :- In("headers", obj);
    if !present then Success(obj)
    else
      var headers :- GetItem(obj, "headers");
      if !headers.JArr? then Success(obj)
      else
        var items :- MapAll(SanitizeHeader, headers.items);
        SetKey(obj, "headers", JArr(items))
  }

  /** One entry of a params or query-string list: a dict whose "name" is sensitive gets the value "[REDACTED]". */
  function RedactParam(p: Json): Result<Json, Exception> {
    if p.JObj? && "name" in Keys(p.members) then
      var name := Get(p.members, "name", JNull);
      if !name.JStr? then Failure(NotText(name))
      else if IsSensitiveField(name.s) then Success(JObj(SetItem(p.members, "value", JStr(Redacted))))
      else Success(p)
    else Success(p)
  }

  /** `if key in obj and isinstance(obj[key], list)`, then every listed parameter redacted. */
  function ParamsIn(obj: Json, key: string): Result<Json, Exception> {
    var present :- In(key, obj);
    if !present then Success(obj)
    else
      var params :- GetItem(obj, key);
      if !params.JArr? then Success(obj)
      else
        var items :- MapAll(RedactParam, params.items);
        SetKey(obj, key, JArr(items))
  }

  /** `_sanitize_json_text(text)`: the top-level values under sensitive keys of a JSON object, whatever their type. */
  function JsonTextSanitized(text: string, lib: Library): string {
    match lib.loads(text)
    case None => text
    case Some(data) =>
      lib.dumps(
        match data
        case JObj(members) =>
          JObj(seq(|members|, i requires 0 <= i < |members| =>
            if IsSensitiveField(members[i].0) then (members[i].0, JStr(Redacted)) else members[i]))
        case _ => data)
  }

  /** The "text" step of `sanitize_post_data`, on the copied post data. */
  function PostTextSanitized(post: Json, lib: Library): Result<Json, Exception> {
    var hasText :- In("text", post);
    if !hasText then Success(post)
    else
      var text :- GetItem(post, "text");
      if !Truthy(text) then Success(post)
      else
        var mime :- GetMethod(post, "mimeType", JStr(""));
        var isForm :- In("application/x-www-form-urlencoded", mime);
        if isForm then
          if text.JStr? then SetKey(post, "text", JStr(FormSanitized(text.s)))
          else Failure(NoAttribute(text, "split"))
        else
          var isJson :- In("application/json", mime);
          if !isJson then Success(post)
          else if text.JStr? then SetKey(post, "text", JStr(JsonTextSanitized(text.s, lib)))
          else Failure(NotJsonText(text))
  }

  /** `sanitize_post_data(post_data)`; the deep copy is implicit, since the value is never shared. */
  function SanitizePostData(post: Json, lib: Library): Result<Json, Exception> {
    if !Truthy(post) then Success(post)
    else
      var withParams :- ParamsIn(post, "params");
      PostTextSanitized(withParams, lib)
  }

  /**
   * Falsy post data (None, an empty dict) comes back as it is, and so does a
   * dict with neither a "params" nor a "text" member.
   */
  lemma SanitizePostDataUntouched(post: Json, lib: Library)
    ensures !Truthy(post) ==> SanitizePostData(post, lib) == Success(post)
    ensures post.JObj? && "params" !in Keys(post.members) && "text" !in Keys(post.members)
            ==> SanitizePostData(post, lib) == Success(post)
  {
  }

  /** `_sanitize_request(req)`. */
  function SanitizeRequest(req: Json, lib: Library): Result<Json, Exception> {
    var withHeaders :- HeadersIn(req);
    var hasPost :- In("postData", withHeaders);
    var withPost :-
      if hasPost then
        var post :- GetItem(withHeaders, "postData");
        var sanitized :- SanitizePostData(post, lib);
        SetKey(withHeaders, "postData", sanitized)
      else Success(withHeaders);
    ParamsIn(withPost, "queryString")
  }

  /** `_sanitize_response_content(content)`. */
  function SanitizeContent(content: Json, lib: Library): Result<Json, Exception> {
    var hasText :- In("text", content);
    if !hasText then Success(content)
    else
      var text :- GetItem(content, "text");
      if !Truthy(text) then Success(content)
      else
        var mime :- GetMethod(content, "mimeType", JStr(""));
        var isHtml :- In("text/html", mime);
        var isMarkup :- if isHtml then Success(true) else In("text/xml", mime);
        if isMarkup then
          if text.JStr? then SetKey(content, "text", JStr(lib.sanitizeHtml(text.s)))
          else Failure(NotText(text))
        else
          var isJson :- In("application/json", mime);
          if !isJson then Success(content)
          else if !text.JStr? then Failure(NotJsonText(text))
          else
            match lib.loads(text.s)
            case None => Success(content)
            case Some(data) => SetKey(content, "text", JStr(lib.dumps(SanitizeJson(data))))
  }

  /** `_sanitize_response(resp)`. */
  function SanitizeResponse(resp: Json, lib: Library): Result<Json, Exception> {
    var withHeaders :- HeadersIn(resp);
    var hasContent :- In("content", withHeaders);
    if !hasContent then Success(withHeaders)
    else
      var content :- GetItem(withHeaders, "content");
      if !content.JObj? then Success(withHeaders)
      else
        var sanitized :- SanitizeContent(content, lib);
        SetKey(withHeaders, "content", sanitized)
  }

  /** `sanitize_entry(entry)`. */
  function SanitizeEntry(entry: Json, lib: Library): Result<Json, Exception> {
    var hasRequest :- In("request", entry);
    var withRequest :-
      if hasRequest then
        var req :- GetItem(entry, "request");
        var sanitized :- SanitizeRequest(req, lib);
        SetKey(entry, "request", sanitized)
      else Success(entry);
    var hasResponse :- In("response", withRequest);
    if !hasResponse then Success(withRequest)
    else
      var resp :- GetItem(withRequest, "response");
      var sanitized :- SanitizeResponse(resp, lib);
      SetKey(withRequest, "response", sanitized)
  }

  function EntrySanitizer(lib: Library): Json -> Result<Json, Exception> {
    e => SanitizeEntry(e, lib)
  }

  /** One page: a dict with a "title" gets the title run through the HTML redaction. */
  function SanitizeTitle(page: Json, lib: Library): Result<Json, Exception> {
    if page.JObj? && "title" in Keys(page.members) then
      var title := Get(page.members, "title", JNull);
      if title.JStr? then Success(JObj(SetItem(page.members, "title", JStr(lib.sanitizeHtml(title.s)))))
      else Failure(NotText(title))
    else Success(page)
  }

  function TitleSanitizer(lib: Library): Json -> Result<Json, Exception> {
    p => SanitizeTitle(p, lib)
  }

  /** The pages loop of `sanitize_har`, on the list's items. */
  method SanitizePages(pages: seq<Json>, lib: Library) returns (r: Result<seq<Json>, Exception>)
    ensures r == MapAll(TitleSanitizer(lib), pages)
  {
    var done: seq<Json> := [];
    var i := 0;
    while i < |pages|
      invariant i <= |pages| && MapAll(TitleSanitizer(lib), pages[..i]) == Success(done)
    {
      assert pages[..i + 1][..i] == pages[..i];
      var p := SanitizeTitle(pages[i], lib);
      if p.Failure? {
        MapAllPrefixFails(TitleSanitizer(lib), pages, i + 1);
        return Failure(p.error);
      }
      done := done + [p.value];
      i := i + 1;
    }
    assert pages[..i] == pages;
    r := Success(done);
  }

  /** `sanitize_har(har_data)`. */
  function SanitizeHar(har: Json, lib: Library): Result<Json, Exception> {
    var hasLog :- In("log", har);
    if !hasLog then Success(har)
    else
      var log :- GetItem(har, "log");
      var hasEntries :- In("entries", log);
      var withEntries :-
        if hasEntries then
          var entries :- GetItem(log, "entries");
          if entries.JArr? then
            var sanitized :- MapAll(EntrySanitizer(lib), entries.items);
            SetKey(log, "entries", JArr(sanitized))
          else Success(log)
        else Success(log);
      var hasPages :- In("pages", withEntries);
      var withPages :-
        if hasPages then
          var pages :- GetItem(withEntries, "pages");
          if pages.JArr? then
            var sanitized :- MapAll(TitleSanitizer(lib), pages.items);
            SetKey(withEntries, "pages", JArr(sanitized))
          else Success(withEntries)
        else Success(withEntries);
      SetKey(har, "log", withPages)
  }

  /** Assigning an existing key of a dict keeps its keys. */
  lemma SetKeyKeeps(container: Json, key: string, value: Json)
    requires container.JObj? && key in Keys(container.members)
    ensures SetKey(container, key, value).Success?
    ensures SetKey(container, key, value).value.JObj?
    ensures Keys(SetKey(container, key, value).value.members) == Keys(container.members)
  {
    SetItemKeys(container.members, key, value);
  }

  /**
   * A header dict keeps its keys and its name; a sensitive header other than a
   * cookie header ends up with the value "[REDACTED]".
   */
  lemma SanitizeHeaderRedacts(h: Json)
    requires h.JObj? && "name" in Keys(h.members) && "value" in Keys(h.members)
    requires SanitizeHeader(h).Success?
    ensures var r := SanitizeHeader(h).value;
      && r.JObj? && Keys(r.members) == Keys(h.members)
      && Lookup(r.members, "name") == Lookup(h.members, "name")
    ensures var name := Get(h.members, "name", JNull);
      var r := SanitizeHeader(h).value;
      (name.JStr? && Lower(name.s) in SensitiveHeaders && Lower(name.s) != "cookie" && Lower(name.s) != "set-cookie")
        ==> Lookup(r.members, "value") == Some(JStr(Redacted))
  {
    var name := Get(h.members, "name", JNull);
    var value := Get(h.members, "value", JNull);
    var lower := Lower(name.s);
    var v := if value.JStr? then JStr(SanitizeHeaderValue(name.s, value.s))
             else if lower in SensitiveHeaders then JStr(Redacted)
             else value;
    assert SanitizeHeader(h) == Success(JObj(SetItem(h.members, "value", v)));
    SetItemKeys(h.members, "value", v);
    SetItemLookup(h.members, "value", v);
    SetItemOthers(h.members, "value", v, "name");
  }

  /** A sanitized HAR entry that is a dict keeps its keys. */
  lemma SanitizeEntryKeys(entry: Json, lib: Library)
    requires entry.JObj? && SanitizeEntry(entry, lib).Success?
    ensures SanitizeEntry(entry, lib).value.JObj?
    ensures Keys(SanitizeEntry(entry, lib).value.members) == Keys(entry.members)
  {
    var withRequest := entry;
    if "request" in Keys(entry.members) {
      var sanitized := SanitizeRequest(GetItem(entry, "request").value, lib).value;
      SetKeyKeeps(entry, "request", sanitized);
      withRequest := SetKey(entry, "request", sanitized).value;
    }
    if "response" in Keys(withRequest.members) {
      var sanitized := SanitizeResponse(GetItem(withRequest, "response").value, lib).value;
      SetKeyKeeps(withRequest, "response", sanitized);
    }
  }

  /** Without a "log" key the HAR comes back as it was. */
  lemma SanitizeHarNoLog(har: Json, lib: Library)
    requires har.JObj? && "log" !in Keys(har.members)
    ensures SanitizeHar(har, lib) == Success(har)
  {
  }

  /** A sanitized HAR has the same top-level keys, and its log's entry list keeps its length. */
  lemma SanitizeHarShape(har: Json, lib: Library)
    requires har.JObj? && SanitizeHar(har, lib).Success?
    ensures SanitizeHar(har, lib).value.JObj?
    ensures Keys(SanitizeHar(har, lib).value.members) == Keys(har.members)
  {
    if "log" in Keys(har.members) {
      var log := GetItem(har, "log").value;
      var hasEntries := In("entries", log).value;
      var withEntries :=
        if hasEntries && GetItem(log, "entries").value.JArr? then
          SetKey(log, "entries", JArr(MapAll(EntrySanitizer(lib), GetItem(log, "entries").value.items).value)).value
        else log;
      var hasPages := In("pages", withEntries).value;
      var withPages :=
        if hasPages && GetItem(withEntries, "pages").value.JArr? then
          SetKey(withEntries, "pages", JArr(MapAll(TitleSanitizer(lib), GetItem(withEntries, "pages").value.items).value)).value
        else withEntries;
      assert SanitizeHar(har, lib) == SetKey(har, "log", withPages);
      SetKeyKeeps(har, "log", withPages);
    }
  }

  // ---- Output file ----

  /** The output path `sanitize_har_file` writes to. */
  function OutputPath(input: string, output: Option<string>): string {
    match output
    case Some(path) => path
    case None =>
      if EndsWith(input, ".har") then input[..|input| - 4] + ".sanitized.har"
      else input + ".sanitized.har"
  }

  /** The default output name ends in ".sanitized.har", keeps the input's stem, and is never the input itself. */
  lemma DefaultOutputPath(input: string)
    ensures EndsWith(OutputPath(input, None), ".sanitized.har")
    ensures OutputPath(input, None) != input
    ensures EndsWith(input, ".har") ==> OutputPath(input, None) == input[..|input| - 4] + ".sanitized.har"
    ensures !EndsWith(input, ".har") ==> StartsWith(OutputPath(input, None), input)
  {
    var out := OutputPath(input, None);
    assert out[|out| - 14..] == ".sanitized.har";
    if !EndsWith(input, ".har") {
      assert out[..|input|] == input;
    }
  }
}
