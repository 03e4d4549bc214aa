/**
 * The Motorola MB8600 HNAP parser: its declarations, the signed SOAP-over-JSON
 * action call, the inline two-step login, the five status fetches, and the
 * decoding of the `^`/`|+|`-delimited channel tables and of the system
 * information into the parse result.
 */
module Mb8600Hnap {
  import opened Wrappers
  import opened Text
  import opened PyJson
  import opened PyNumbers
  import opened Md5
  import opened Http
  import opened HnapAuth
  import opened BaseParser

  const Namespace: string := "http://purenetworks.com/HNAP1/"
  const Endpoint: string := "/HNAP1/"

  const Auth: AuthConfig := HnapAuthConfig(HnapSession, "/Login.html", Endpoint, "UN-AUTH", Namespace)

  const Descriptor: ParserDescriptor := ParserDescriptor(
    "Motorola MB8600 (HNAP)",
    "Motorola",
    ["MB8600"],
    101,
    false,
    Some("WIP"),
    [UrlPattern("/HNAP1/", "hnap", true), UrlPattern("/MotoStatusConnection.html", "hnap", true)],
    Defaults.authType,
    Some(Auth),
    {DownstreamChannels, UpstreamChannels, SystemUptime})

  /** `can_parse(soup, url, html)`. */
  predicate CanParse(html: string) {
    || Contains(html, "MB8600")
    || Contains(html, "MB 8600")
    || ((Contains(html, "HNAP") || Contains(html, "purenetworks.com/HNAP1")) && Contains(html, "Motorola") && Contains(html, "MB8600"))
  }

  /** The HNAP/Motorola clause only ever fires when "MB8600" already occurs: detection is by model string alone. */
  lemma CanParseIff(html: string)
    ensures CanParse(html) <==> Contains(html, "MB8600") || Contains(html, "MB 8600")
  {
  }

  // ---------------------------------------------------------------- SOAP action call

  /** `base_url.rstrip('/')`. */
  function StripTrailingSlashes(s: string): (r: string)
    ensures |r| <= |s| && r == s[..|r|]
    ensures r == [] || r[|r| - 1] != '/'
    ensures forall i :: |r| <= i < |s| ==> s[i] == '/'
  {
    if |s| > 0 && s[|s| - 1] == '/' then StripTrailingSlashes(s[..|s| - 1]) else s
  }

  /** The POST of `_send_soap_action`, signed at timestamp `ts`. */
  function SoapRequest(h: HexDigest, baseUrl: string, action: string, params: seq<(string, Json)>,
                       key: string, ts: nat): Request
  {
    Request(StripTrailingSlashes(baseUrl) + Endpoint,
            [("SOAPAction", SoapActionUri(Namespace, action)), ("HNAP_AUTH", AuthHeader(h, key, Namespace, action, ts))],
            JObj([(action, JObj(params))]))
  }

  /** What a reply makes of the call: the `<action>Response` member, or the exception raised on the way. */
  function SoapResult(reply: Reply, url: string, action: string): (r: Result<Json, Exception>)
    ensures reply.Raised? ==> r == Failure(reply.error)
    ensures reply.Response? && 400 <= reply.status < 600 ==> r.Failure? && r.error.kind == HttpError
    ensures r.Success? ==>
      (reply.Response? && reply.json.Success? && reply.json.value.JObj?
       && r.value == Get(reply.json.value.members, action + "Response", JObj([])))
  {
    match reply
    case Raised(e) => Failure(e)
    case Response(status, reason, _, json) =>
      match StatusError(status, reason, url)
      case Some(e) => Failure(e)
      case None =>
        match DecodeBody(json)
        case Failure(e) => Failure(e)
        case Success(body) => GetMethod(body, action + "Response", JObj([]))
  }

  /** One `_send_soap_action` call: its outcome and the requests it posted (none when the key is not a string). */
  datatype Exchange = Exchange(result: Result<Json, Exception>, sent: seq<Request>)

  function SoapExchange(h: HexDigest, baseUrl: string, action: string, params: seq<(string, Json)>,
                        privateKey: Json, reply: Reply, now: real): (ex: Exchange)
    ensures |ex.sent| == if privateKey.JStr? then 1 else 0
  {
    if !privateKey.JStr? then Exchange(Failure(NoAttribute(privateKey, "encode")), [])
    else
      var request := SoapRequest(h, baseUrl, action, params, privateKey.s, RoundedTimestamp(now));
      Exchange(SoapResult(reply, request.url, action), [request])
  }

  /** `_send_soap_action(session, base_url, action, params, private_key)`: reads the clock once, posts at most once. */
  method SendSoapAction(h: HexDigest, session: Session, clock: Clock, baseUrl: string, action: string,
                        params: seq<(string, Json)>, privateKey: Json)
    returns (r: Result<Json, Exception>)
    modifies session, clock
    ensures var ex := SoapExchange(h, baseUrl, action, params, privateKey, ReplyAt(old(session.replies), 0),
                                   clock.readings(old(clock.calls)));
      && r == ex.result
      && session.sent == old(session.sent) + ex.sent
      && session.replies == Consume(old(session.replies), |ex.sent|)
      && session.cookies == old(session.cookies)
      && clock.calls == old(clock.calls) + 1
  {
    var uri := SoapActionUri(Namespace, action);
    var now := clock.Now();
    var timestamp := RoundedTimestamp(now);
    if !privateKey.JStr? {
      return Failure(NoAttribute(privateKey, "encode"));
    }
    var auth := HmacMd5Upper(h, privateKey.s, Decimal(timestamp) + uri) + " " + Decimal(timestamp);
    var url := StripTrailingSlashes(baseUrl) + Endpoint;
    var reply := session.Post(Request(url, [("SOAPAction", uri), ("HNAP_AUTH", auth)], JObj([(action, JObj(params))])));
    r := SoapResult(reply, url, action);
  }

  // ---------------------------------------------------------------- login

  /** A login result the MB8600 parser accepts: "OK" or lower-case "success". */
  predicate IsLoginSuccess(result: Json) {
    result == JStr("OK") || result == JStr("success")
  }

  /** Everything one `login` call does: its result pair, the cookie jar it leaves, the requests it sent. */
  datatype LoginTrace = LoginTrace(ok: bool, detail: Json, cookies: map<string, Json>, sent: seq<Request>)

  /** The private key: HMAC_MD5(f"{PublicKey}{password}", Challenge). */
  function PrivateKeyOf(h: HexDigest, publicKey: Json, password: string, challenge: string): string {
    HmacMd5Upper(h, Str(publicKey) + password, challenge)
  }

  /**
   * `login(session, base_url, username, password)` on a session holding
   * `cookies`, answered by `replies`, with clock readings `t1` then `t2`.
   */
  function LoginRun(h: HexDigest, baseUrl: string, username: string, password: string,
                    cookies: map<string, Json>, replies: seq<Reply>, t1: real, t2: real): LoginTrace
  {
    var first := SoapExchange(h, baseUrl, "Login", [("Action", JStr("request")), ("Username", JStr(username))],
                              JStr(DefaultKey), ReplyAt(replies, 0), t1);
    var rest := ChallengeReceived(h, baseUrl, username, password, first.result, cookies, ReplyAt(replies, 1), t2);
    rest.(sent := first.sent + rest.sent)
  }

  /** What `login` does with the outcome of its first request: give up, or answer the challenge. */
  function ChallengeReceived(h: HexDigest, baseUrl: string, username: string, password: string,
                             first: Result<Json, Exception>, cookies: map<string, Json>, reply: Reply, now: real)
    : LoginTrace
  {
    match first
    case Failure(e) => LoginTrace(false, JStr(e.message), cookies, [])
    case Success(response) =>
      match response
      case JObj(fields) => ChallengeStep(h, baseUrl, username, password, fields, cookies, reply, now)
      case _ => LoginTrace(false, JStr(NoAttribute(response, "get").message), cookies, [])
  }

  /** The part of `login` after the challenge response `fields` has arrived. */
  function ChallengeStep(h: HexDigest, baseUrl: string, username: string, password: string,
                         fields: seq<(string, Json)>, cookies: map<string, Json>, reply: Reply, now: real): LoginTrace
  {
    var cookie := Get(fields, "Cookie", JStr(""));
    var jar := if Truthy(cookie) then cookies["uid" := cookie] else cookies;
    var publicKey := Get(fields, "PublicKey", JStr(""));
    var challenge := Get(fields, "Challenge", JStr(""));
    if !Truthy(publicKey) || !Truthy(challenge) then
      LoginTrace(false, JStr("Missing authentication parameters"), jar, [])
    else if !challenge.JStr? then
      LoginTrace(false, JStr(NoAttribute(challenge, "encode").message), jar, [])
    else AnswerChallenge(h, baseUrl, username, PrivateKeyOf(h, publicKey, password, challenge.s), challenge.s,
                         jar, reply, now)
  }

  /** The second request of `login`: the PrivateKey cookie is set to `key` and the login password derived from it is sent. */
  function AnswerChallenge(h: HexDigest, baseUrl: string, username: string, key: string, challenge: string,
                           jar: map<string, Json>, reply: Reply, now: real): LoginTrace
  {
    var keyed := jar["PrivateKey" := JStr(key)];
    var second := SoapExchange(h, baseUrl, "Login",
                               [("Action", JStr("login")), ("Username", JStr(username)),
                                ("LoginPassword", JStr(HmacMd5Upper(h, key, challenge)))],
                               JStr(key), reply, now);
    match second.result
    case Failure(e) => LoginTrace(false, JStr(e.message), keyed, second.sent)
    case Success(response) =>
      match response
      case JObj(result) =>
        var loginResult := Get(result, "LoginResult", JStr(""));
        LoginTrace(IsLoginSuccess(loginResult), loginResult, keyed, second.sent)
      case _ => LoginTrace(false, JStr(NoAttribute(response, "get").message), keyed, second.sent)
  }

  /** `login(session, base_url, username, password)`. */
  method Login(h: HexDigest, session: Session, clock: Clock, baseUrl: string, username: string, password: string)
    returns (ok: bool, detail: Json)
    modifies session, clock
    ensures var t := LoginRun(h, baseUrl, username, password, old(session.cookies), old(session.replies),
                              clock.readings(old(clock.calls)), clock.readings(old(clock.calls) + 1));
      && ok == t.ok && detail == t.detail && session.cookies == t.cookies
      && session.sent == old(session.sent) + t.sent
      && session.replies == Consume(old(session.replies), |t.sent|)
      && clock.calls == old(clock.calls) + |t.sent|
  {
    ghost var replies, sent0 := session.replies, session.sent;
    ghost var first := SoapExchange(h, baseUrl, "Login", [("Action", JStr("request")), ("Username", JStr(username))],
                                    JStr(DefaultKey), ReplyAt(replies, 0), clock.readings(clock.calls));
    var response := SendSoapAction(h, session, clock, baseUrl, "Login",
                                   [("Action", JStr("request")), ("Username", JStr(username))], JStr(DefaultKey));
    ConsumeStep(replies, 1);
    ok, detail := ReadChallenge(h, session, clock, baseUrl, username, password, response);
    ghost var rest := ChallengeReceived(h, baseUrl, username, password, response, old(session.cookies),
                                        ReplyAt(replies, 1), clock.readings(old(clock.calls) + 1));
    AppendAssoc(sent0, first.sent, rest.sent);
    ConsumeTwice(replies, 1, |rest.sent|);
  }

  /** The rest of `login` once its first request has given `response`. */
  method ReadChallenge(h: HexDigest, session: Session, clock: Clock, baseUrl: string, username: string,
                       password: string, response: Result<Json, Exception>)
    returns (ok: bool, detail: Json)
    modifies session, clock
    ensures var t := ChallengeReceived(h, baseUrl, username, password, response, old(session.cookies),
                                       ReplyAt(old(session.replies), 0), clock.readings(old(clock.calls)));
      && ok == t.ok && detail == t.detail && session.cookies == t.cookies
      && session.sent == old(session.sent) + t.sent
      && session.replies == Consume(old(session.replies), |t.sent|)
      && clock.calls == old(clock.calls) + |t.sent|
  {
    if response.Failure? {
      assert session.sent + [] == session.sent;
      return false, JStr(response.error.message);
    }
    if !response.value.JObj? {
      assert session.sent + [] == session.sent;
      return false, JStr(NoAttribute(response.value, "get").message);
    }
    ok, detail := CompleteLogin(h, session, clock, baseUrl, username, password, response.value.members);
  }

  /** The part of `login` that reads the challenge response and answers it. */
  method CompleteLogin(h: HexDigest, session: Session, clock: Clock, baseUrl: string, username: string,
                       password: string, fields: seq<(string, Json)>)
    returns (ok: bool, detail: Json)
    modifies session, clock
    ensures var t := ChallengeStep(h, baseUrl, username, password, fields, old(session.cookies),
                                   ReplyAt(old(session.replies), 0), clock.readings(old(clock.calls)));
      && ok == t.ok && detail == t.detail && session.cookies == t.cookies
      && session.sent == old(session.sent) + t.sent
      && session.replies == Consume(old(session.replies), |t.sent|)
      && clock.calls == old(clock.calls) + |t.sent|
  {
    var cookie := Get(fields, "Cookie", JStr(""));
    if Truthy(cookie) {
      session.SetCookie("uid", cookie);
    }
    var publicKey := Get(fields, "PublicKey", JStr(""));
    var challenge := Get(fields, "Challenge", JStr(""));
    if !Truthy(publicKey) || !Truthy(challenge) {
      return false, JStr("Missing authentication parameters");
    }
    if !challenge.JStr? {
      return false, JStr(NoAttribute(challenge, "encode").message);
    }
    var key := HmacMd5Upper(h, Str(publicKey) + password, challenge.s);
    ok, detail := SendAnswer(h, session, clock, baseUrl, username, key, challenge.s);
  }

  /** The second request of `login`: store the PrivateKey cookie, send the login password and read LoginResult. */
  method SendAnswer(h: HexDigest, session: Session, clock: Clock, baseUrl: string, username: string,
                    key: string, challenge: string)
    returns (ok: bool, detail: Json)
    modifies session, clock
    ensures var t := AnswerChallenge(h, baseUrl, username, key, challenge, old(session.cookies),
                                     ReplyAt(old(session.replies), 0), clock.readings(old(clock.calls)));
      && ok == t.ok && detail == t.detail && session.cookies == t.cookies
      && session.sent == old(session.sent) + t.sent
      && session.replies == Consume(old(session.replies), |t.sent|)
      && clock.calls == old(clock.calls) + |t.sent|
  {
    session.SetCookie("PrivateKey", JStr(key));
    var loginPassword := HmacMd5Upper(h, key, challenge);
    var response := SendSoapAction(h, session, clock, baseUrl, "Login",
                                   [("Action", JStr("login")), ("Username", JStr(username)),
                                    ("LoginPassword", JStr(loginPassword))], JStr(key));
    if response.Failure? {
      return false, JStr(response.error.message);
    }
    if !response.value.JObj? {
      return false, JStr(NoAttribute(response.value, "get").message);
    }
    var loginResult := Get(response.value.members, "LoginResult", JStr(""));
    ok, detail := IsLoginSuccess(loginResult), loginResult;
  }

  /** The LoginResult of the login reply, when reading it raises nothing. */
  function LoginResultOf(reply: Reply, url: string): Option<Json> {
    match SoapResult(reply, url, "Login")
    case Success(JObj(result)) => Some(Get(result, "LoginResult", JStr("")))
    case _ => None
  }

  /**
   * After the challenge response: the login succeeds exactly when the
   * challenge and public key are usable and the reply's LoginResult is "OK" or
   * "success"; the PrivateKey cookie then holds the derived key. No cookie but
   * uid and PrivateKey changes, and a PrivateKey cookie is never removed.
   */
  lemma ChallengeStepOutcome(h: HexDigest, baseUrl: string, username: string, password: string,
                             fields: seq<(string, Json)>, cookies: map<string, Json>, reply: Reply, now: real)
    ensures var t := ChallengeStep(h, baseUrl, username, password, fields, cookies, reply, now);
      var publicKey := Get(fields, "PublicKey", JStr(""));
      var challenge := Get(fields, "Challenge", JStr(""));
      var usable := Truthy(publicKey) && challenge.JStr? && challenge.s != "";
      && |t.sent| == (if usable then 1 else 0)
      && (t.ok <==> usable && LoginResultOf(reply, StripTrailingSlashes(baseUrl) + Endpoint).Some?
                    && IsLoginSuccess(LoginResultOf(reply, StripTrailingSlashes(baseUrl) + Endpoint).value))
      && (usable ==> "PrivateKey" in t.cookies
                     && t.cookies["PrivateKey"] == JStr(PrivateKeyOf(h, publicKey, password, challenge.s)))
      && ("PrivateKey" in cookies ==> "PrivateKey" in t.cookies)
      && (forall k :: k != "uid" && k != "PrivateKey" ==> (k in t.cookies <==> k in cookies))
  {
    var publicKey := Get(fields, "PublicKey", JStr(""));
    var challenge := Get(fields, "Challenge", JStr(""));
    if Truthy(publicKey) && Truthy(challenge) && challenge.JStr? {
      var cookie := Get(fields, "Cookie", JStr(""));
      var jar := if Truthy(cookie) then cookies["uid" := cookie] else cookies;
      AnswerChallengeOutcome(h, baseUrl, username, PrivateKeyOf(h, publicKey, password, challenge.s), challenge.s,
                             jar, reply, now);
    }
  }

  /**
   * The rest of the challenge step: the uid cookie is set to a non-empty Cookie
   * and otherwise left alone, and a missing or empty PublicKey or Challenge gives
   * "Missing authentication parameters" without a request.
   */
  lemma ChallengeStepDetails(h: HexDigest, baseUrl: string, username: string, password: string,
                             fields: seq<(string, Json)>, cookies: map<string, Json>, reply: Reply, now: real)
    ensures var t := ChallengeStep(h, baseUrl, username, password, fields, cookies, reply, now);
      var cookie := Get(fields, "Cookie", JStr(""));
      && (Truthy(cookie) ==> "uid" in t.cookies && t.cookies["uid"] == cookie)
      && (!Truthy(cookie) ==> ("uid" in t.cookies <==> "uid" in cookies)
                              && ("uid" in cookies ==> t.cookies["uid"] == cookies["uid"]))
      && (!Truthy(Get(fields, "PublicKey", JStr(""))) || !Truthy(Get(fields, "Challenge", JStr(""))) ==>
            !t.ok && t.detail == JStr("Missing authentication parameters") && t.sent == [])
  {
    var cookie := Get(fields, "Cookie", JStr(""));
    var jar := if Truthy(cookie) then cookies["uid" := cookie] else cookies;
    var publicKey := Get(fields, "PublicKey", JStr(""));
    var challenge := Get(fields, "Challenge", JStr(""));
    if Truthy(publicKey) && Truthy(challenge) && challenge.JStr? {
      AnswerChallengeOutcome(h, baseUrl, username, PrivateKeyOf(h, publicKey, password, challenge.s), challenge.s,
                             jar, reply, now);
    }
  }

  /**
   * A usable challenge is answered by one Login request, signed with the
   * derived key, whose LoginPassword is HMAC_MD5(key, Challenge).
   */
  lemma ChallengeStepAnswer(h: HexDigest, baseUrl: string, username: string, password: string,
                            fields: seq<(string, Json)>, cookies: map<string, Json>, reply: Reply, now: real)
    requires Truthy(Get(fields, "PublicKey", JStr("")))
    requires Get(fields, "Challenge", JStr("")).JStr? && Get(fields, "Challenge", JStr("")).s != ""
    ensures var challenge := Get(fields, "Challenge", JStr("")).s;
      var key := PrivateKeyOf(h, Get(fields, "PublicKey", JStr("")), password, challenge);
      ChallengeStep(h, baseUrl, username, password, fields, cookies, reply, now).sent
        == [SoapRequest(h, baseUrl, "Login",
                        [("Action", JStr("login")), ("Username", JStr(username)),
                         ("LoginPassword", JStr(HmacMd5Upper(h, key, challenge)))],
                        key, RoundedTimestamp(now))]
  {
  }

  /** The answer is one request; it succeeds exactly when the reply's LoginResult is accepted, and the jar gains the key. */
  lemma AnswerChallengeOutcome(h: HexDigest, baseUrl: string, username: string, key: string, challenge: string,
                               jar: map<string, Json>, reply: Reply, now: real)
    ensures var t := AnswerChallenge(h, baseUrl, username, key, challenge, jar, reply, now);
      var result := LoginResultOf(reply, StripTrailingSlashes(baseUrl) + Endpoint);
      && |t.sent| == 1
      && (t.ok <==> result.Some? && IsLoginSuccess(result.value))
      && t.cookies == jar["PrivateKey" := JStr(key)]
  {
    var second := SoapExchange(h, baseUrl, "Login",
                               [("Action", JStr("login")), ("Username", JStr(username)),
                                ("LoginPassword", JStr(HmacMd5Upper(h, key, challenge)))],
                               JStr(key), reply, now);
    assert second.result == SoapResult(reply, StripTrailingSlashes(baseUrl) + Endpoint, "Login");
  }

  /** A whole login sends one or two requests, and succeeds only after sending both. */
  lemma LoginOutcome(h: HexDigest, baseUrl: string, username: string, password: string,
                     cookies: map<string, Json>, replies: seq<Reply>, t1: real, t2: real)
    ensures var t := LoginRun(h, baseUrl, username, password, cookies, replies, t1, t2);
      && 1 <= |t.sent| <= 2
      && (t.ok ==> |t.sent| == 2 && "PrivateKey" in t.cookies && t.cookies["PrivateKey"].JStr?
                   && IsUpperHexDigest(t.cookies["PrivateKey"].s))
      && ("PrivateKey" in cookies ==> "PrivateKey" in t.cookies)
  {
    var first := SoapExchange(h, baseUrl, "Login", [("Action", JStr("request")), ("Username", JStr(username))],
                              JStr(DefaultKey), ReplyAt(replies, 0), t1);
    var t := LoginRun(h, baseUrl, username, password, cookies, replies, t1, t2);
    if first.result.Success? && first.result.value.JObj? {
      var fields := first.result.value.members;
      assert t.sent == first.sent + ChallengeStep(h, baseUrl, username, password, fields, cookies, ReplyAt(replies, 1), t2).sent;
      ChallengeStepOutcome(h, baseUrl, username, password, fields, cookies, ReplyAt(replies, 1), t2);
      var publicKey := Get(fields, "PublicKey", JStr(""));
      var challenge := Get(fields, "Challenge", JStr(""));
      if Truthy(publicKey) && challenge.JStr? && challenge.s != "" {
        HmacMd5UpperShape(h, Str(publicKey) + password, challenge.s);
      }
    } else {
      assert !t.ok && t.cookies == cookies && t.sent == first.sent;
    }
  }

  /** The JSON builder accepts "SUCCESS" but this parser does not: the two logins disagree on that reply. */
  lemma SuccessSpellings()
    ensures !IsLoginSuccess(JStr("SUCCESS")) && IsLoginSuccess(JStr("success")) && IsLoginSuccess(JStr("OK"))
  {
  }

  // ---------------------------------------------------------------- authentication failures

  const AuthIndicators: seq<string> := [
    "401", "403", "unauthorized", "forbidden", "authentication failed", "login failed",
    "invalid credentials", "session timeout", "invalid session",
    "\"loginresult\":\"failed\"", "\"loginresult\": \"failed\""]

  /** `_is_auth_failure(error)` on `str(error)`. */
  predicate IsAuthFailure(message: string) {
    exists indicator :: indicator in AuthIndicators && Contains(Lower(message), indicator)
  }

  /** Detection ignores letter case. */
  lemma AuthFailureIgnoresCase(message: string)
    ensures IsAuthFailure(Lower(message)) <==> IsAuthFailure(message)
  {
    LowerIdempotent(message);
  }

  /** The HTTPError that `raise_for_status` raises for 401 and 403 replies is recognised as an authentication failure. */
  lemma HttpAuthStatusDetected(status: nat, reason: string, url: string)
    requires status == 401 || status == 403
    ensures StatusError(status, reason, url).Some? && IsAuthFailure(StatusError(status, reason, url).value.message)
  {
    var message := StatusError(status, reason, url).value.message;
    var code := if status == 401 then "401" else "403";
    assert Decimal(status) == code;
    assert message[..3] == code;
    assert Lower(message)[..3] == code;
    ContainsAt(Lower(message), code, 0);
    assert code in AuthIndicators;
  }

  /** `_diagnostic_context["error"]`: the first 200 characters of the message. */
  function Truncated(message: string): (r: string)
    ensures |r| <= 200 && |r| <= |message| && r == message[..|r|]
    ensures |message| <= 200 ==> r == message
  {
    if |message| <= 200 then message else message[..200]
  }

  type Mb8600Result = ParseResult<DownstreamChannel, UpstreamChannel>

  /** The result of `parse` when `_parse_with_hnap` raised `error`. */
  function RecoverParse(error: Exception): (r: Mb8600Result)
    ensures r.downstream == [] && r.upstream == [] && r.systemInfo == []
    ensures r.authFailure.Some? <==> IsAuthFailure(error.message)
    ensures r.authFailure.Some? ==>
      r.authFailure.value.parser == "MB8600 HNAP" && r.authFailure.value.errorType == "HNAP authentication failure"
      && |r.authFailure.value.error| <= 200 && StartsWith(error.message, r.authFailure.value.error)
  {
    ParseResult([], [], [],
      if IsAuthFailure(error.message)
      then Some(DiagnosticContext("MB8600 HNAP", Truncated(error.message), "HNAP authentication failure"))
      else None)
  }

  // ---------------------------------------------------------------- channel tables

  /** One downstream row: "ID^Status^Mod^ChID^Freq^Power^SNR^Corr^Uncorr^". */
  datatype DownstreamChannel = DownstreamChannel(
    channelId: int, lockStatus: string, modulation: string, chId: int,
    frequency: int, power: Num, snr: Num, corrected: int, uncorrected: int)

  /** One upstream row: "ID^Status^Mod^ChID^SymbolRate^Freq^Power^". */
  datatype UpstreamChannel = UpstreamChannel(
    channelId: int, lockStatus: string, modulation: string, chId: int,
    symbolRate: int, frequency: int, power: Num)

  /** How one row of a channel table is taken: kept, skipped, or ending the whole table (an exception outside the row's handler). */
  datatype Decoded<T> = Keep(channel: T) | Skip | Abort

  /** `int(round(float(text.strip()) * 1_000_000))`: MHz to Hz. */
  function FrequencyHz(mhz: Num): Result<int, Exception> {
    RoundNum(ScaleNum(mhz, 1000000.0))
  }

  /** The frequency column: a value, a skipped row (ValueError) or an ended table (OverflowError). */
  function FrequencyStep<T>(mhz: Option<Num>, rest: int -> Decoded<T>): Decoded<T> {
    match mhz
    case None => Skip
    case Some(n) =>
      match FrequencyHz(n)
      case Success(hz) => rest(hz)
      case Failure(e) => if e.kind == OverflowError then Abort else Skip
  }

  /** One entry of the downstream table. */
  function DecodeDownstream(entry: string): Decoded<DownstreamChannel> {
    if Strip(entry) == "" then Skip
    else
      var f := Split(entry, "^");
      if |f| < 9 then Skip else DownstreamFields(f)
  }

  /** An infinite frequency cannot be rounded to hertz: the step ends the table whatever follows. */
  lemma InfiniteStepAborts<T>(n: Num, rest: int -> Decoded<T>)
    requires n.Infinite?
    ensures FrequencyStep(Some(n), rest) == Abort
  {
  }

  /** The fields of a downstream entry that has at least nine. */
  function DownstreamFields(f: seq<string>): Decoded<DownstreamChannel>
    requires |f| >= 9
  {
    if ParseInt(f[0]).Some? && ParseInt(f[3]).Some? then FrequencyStep(ParseFloat(f[4]), DownstreamRest(f))
    else Skip
  }

  /** The columns after the frequency, once the two ids are integers. */
  function DownstreamRest(f: seq<string>): int -> Decoded<DownstreamChannel>
    requires |f| >= 9 && ParseInt(f[0]).Some? && ParseInt(f[3]).Some?
  {
    (hz: int) =>
      match (ParseFloat(f[5]), ParseFloat(f[6]), ParseInt(f[7]), ParseInt(f[8]))
      case (Some(power), Some(snr), Some(corrected), Some(uncorrected)) =>
        Keep(DownstreamChannel(ParseInt(f[0]).value, Strip(f[1]), Strip(f[2]), ParseInt(f[3]).value, hz,
                               power, snr, corrected, uncorrected))
      case _ => Skip
  }

  /** One entry of the upstream table. */
  function DecodeUpstream(entry: string): Decoded<UpstreamChannel> {
    if Strip(entry) == "" then Skip
    else
      var f := Split(entry, "^");
      if |f| < 7 then Skip else UpstreamFields(f)
  }

  /** The fields of an upstream entry that has at least seven. */
  function UpstreamFields(f: seq<string>): Decoded<UpstreamChannel>
    requires |f| >= 7
  {
    if ParseInt(f[0]).Some? && ParseInt(f[3]).Some? && ParseInt(f[4]).Some? then
      FrequencyStep(ParseFloat(f[5]), UpstreamRest(f))
    else Skip
  }

  /** The power column after the frequency, once the ids and the symbol rate are integers. */
  function UpstreamRest(f: seq<string>): int -> Decoded<UpstreamChannel>
    requires |f| >= 7 && ParseInt(f[0]).Some? && ParseInt(f[3]).Some? && ParseInt(f[4]).Some?
  {
    (hz: int) =>
      match ParseFloat(f[6])
      case Some(power) =>
        Keep(UpstreamChannel(ParseInt(f[0]).value, Strip(f[1]), Strip(f[2]), ParseInt(f[3]).value,
                             ParseInt(f[4]).value, hz, power))
      case None => Skip
  }

  /** The channels of a table: kept rows in order, up to the first row that ends the table. */
  function Collect<T>(ds: seq<Decoded<T>>): (channels: seq<T>)
    ensures |channels| <= |ds|
  {
    if |ds| == 0 then []
    else
      match ds[0]
      case Keep(c) => [c] + Collect(ds[1..])
      case Skip => Collect(ds[1..])
      case Abort => []
  }

  predicate NoAbort<T>(ds: seq<Decoded<T>>) {
    forall i :: 0 <= i < |ds| ==> !ds[i].Abort?
  }

  /** Tables concatenate: the channels of two runs of rows are those of each, in order. */
  lemma {:induction false} CollectAppend<T>(a: seq<Decoded<T>>, b: seq<Decoded<T>>)
    requires NoAbort(a)
    ensures Collect(a + b) == Collect(a) + Collect(b)
    decreases |a|
  {
    if |a| > 0 {
      assert (a + b)[0] == a[0];
      assert (a + b)[1..] == a[1..] + b;
      CollectAppend(a[1..], b);
      assert !a[0].Abort?;
      if a[0].Keep? {
        assert Collect(a) == [a[0].channel] + Collect(a[1..]);
        assert Collect(a + b) == [a[0].channel] + Collect(a[1..] + b);
      } else {
        assert Collect(a) == Collect(a[1..]);
        assert Collect(a + b) == Collect(a[1..] + b);
      }
    } else {
      assert a + b == b;
    }
  }

  /** Every channel comes from a kept row, and every kept row before the first ending one is a channel. */
  lemma {:induction false} CollectKept<T>(ds: seq<Decoded<T>>)
    ensures forall c :: c in Collect(ds) ==> Keep(c) in ds
    ensures NoAbort(ds) ==> forall i :: 0 <= i < |ds| && ds[i].Keep? ==> ds[i].channel in Collect(ds)
    decreases |ds|
  {
    if |ds| > 0 {
      CollectKept(ds[1..]);
      assert forall i :: 1 <= i < |ds| ==> ds[i] == ds[1..][i - 1];
    }
  }

  /** Each entry of a table, decoded. */
  function DecodeAll<T>(entries: seq<string>, decode: string -> Decoded<T>): (ds: seq<Decoded<T>>)
    ensures |ds| == |entries| && forall i :: 0 <= i < |entries| ==> ds[i] == decode(entries[i])
  {
    seq(|entries|, i requires 0 <= i < |entries| => decode(entries[i]))
  }

  lemma DecodeAllAppend<T>(a: seq<string>, b: seq<string>, decode: string -> Decoded<T>)
    ensures DecodeAll(a + b, decode) == DecodeAll(a, decode) + DecodeAll(b, decode)
  {
  }

  /** The row loop shared by both tables: decode each entry in turn, keep, skip, or stop. */
  method DecodeRows<T>(entries: seq<string>, decode: string -> Decoded<T>) returns (channels: seq<T>)
    ensures channels == Collect(DecodeAll(entries, decode))
  {
    channels := [];
    ghost var ds := DecodeAll(entries, decode);
    var i := 0;
    while i < |entries|
      invariant 0 <= i <= |entries|
      invariant Collect(ds) == channels + Collect(ds[i..])
    {
      assert ds[i..][0] == decode(entries[i]) && ds[i..][1..] == ds[i + 1..];
      var d := decode(entries[i]);
      if d.Abort? {
        return;
      }
      if d.Keep? {
        channels := channels + [d.channel];
      }
      i := i + 1;
    }
  }

  /** `hnap_data.get(response, {}).get(field, "").split("|+|")`; no rows when the data is empty or not text. */
  function ChannelEntries(data: seq<(string, Json)>, response: string, field: string): seq<string> {
    match GetMethod(Get(data, response, JObj([])), field, JStr(""))
    case Failure(_) => []
    case Success(channelData) =>
      if Truthy(channelData) && channelData.JStr? then Split(channelData.s, "|+|") else []
  }

  const DownstreamResponse: string := "GetMotoStatusDownstreamChannelInfoResponse"
  const UpstreamResponse: string := "GetMotoStatusUpstreamChannelInfoResponse"

  function DownstreamFrom(data: seq<(string, Json)>): seq<DownstreamChannel> {
    Collect(DecodeAll(ChannelEntries(data, DownstreamResponse, "MotoConnDownstreamChannel"), DecodeDownstream))
  }

  function UpstreamFrom(data: seq<(string, Json)>): seq<UpstreamChannel> {
    Collect(DecodeAll(ChannelEntries(data, UpstreamResponse, "MotoConnUpstreamChannel"), DecodeUpstream))
  }

  /** `_parse_downstream_from_hnap(hnap_data)`. */
  method ParseDownstream(data: seq<(string, Json)>) returns (channels: seq<DownstreamChannel>)
    ensures channels == DownstreamFrom(data)
  {
    channels := DecodeRows(ChannelEntries(data, DownstreamResponse, "MotoConnDownstreamChannel"), DecodeDownstream);
  }

  /** `_parse_upstream_from_hnap(hnap_data)`. */
  method ParseUpstream(data: seq<(string, Json)>) returns (channels: seq<UpstreamChannel>)
    ensures channels == UpstreamFrom(data)
  {
    channels := DecodeRows(ChannelEntries(data, UpstreamResponse, "MotoConnUpstreamChannel"), DecodeUpstream);
  }

  /** A skipped row is dropped and the rows around it are kept, in order. */
  lemma SkippedRowOmitted<T>(before: seq<string>, row: string, after: seq<string>, decode: string -> Decoded<T>)
    requires NoAbort(DecodeAll(before, decode))
    requires decode(row) == Skip
    ensures Collect(DecodeAll(before + [row] + after, decode))
         == Collect(DecodeAll(before, decode)) + Collect(DecodeAll(after, decode))
  {
    var a := DecodeAll(before, decode);
    DecodeAllAppend(before + [row], after, decode);
    DecodeAllAppend(before, [row], decode);
    assert DecodeAll(before + [row] + after, decode) == a + ([Skip] + DecodeAll(after, decode));
    CollectAppend(a, [Skip] + DecodeAll(after, decode));
  }

  /** A row that ends the table loses every row after it. */
  lemma AbortingRowEndsTable<T>(before: seq<string>, row: string, after: seq<string>, decode: string -> Decoded<T>)
    requires NoAbort(DecodeAll(before, decode))
    requires decode(row) == Abort
    ensures Collect(DecodeAll(before + [row] + after, decode)) == Collect(DecodeAll(before, decode))
  {
    var a := DecodeAll(before, decode);
    DecodeAllAppend(before + [row], after, decode);
    DecodeAllAppend(before, [row], decode);
    assert DecodeAll(before + [row] + after, decode) == a + ([Abort] + DecodeAll(after, decode));
    CollectAppend(a, [Abort] + DecodeAll(after, decode));
  }

  /** Blank rows and rows with fewer than nine (downstream) or seven (upstream) fields are skipped. */
  lemma ShortRowsSkipped(row: string)
    ensures Strip(row) == "" || |Split(row, "^")| < 9 ==> DecodeDownstream(row) == Skip
    ensures Strip(row) == "" || |Split(row, "^")| < 7 ==> DecodeUpstream(row) == Skip
  {
  }

  lemma InfiniteFieldAborts(f: seq<string>)
    requires |f| >= 9 && ParseInt(f[0]).Some? && ParseInt(f[3]).Some?
    requires ParseFloat(f[4]).Some? && ParseFloat(f[4]).value.Infinite?
    ensures DownstreamFields(f) == Abort
  {
    var mhz := ParseFloat(f[4]);
    InfiniteStepAborts(mhz.value, DownstreamRest(f));
    assert DownstreamFields(f) == FrequencyStep(mhz, DownstreamRest(f));
  }

  /** A row whose frequency reads as an infinity (and whose two leading ids are integers) ends the downstream table. */
  lemma InfiniteFrequencyAborts(row: string)
    requires Strip(row) != "" && |Split(row, "^")| >= 9
    requires ParseInt(Split(row, "^")[0]).Some? && ParseInt(Split(row, "^")[3]).Some?
    requires ParseFloat(Split(row, "^")[4]).Some? && ParseFloat(Split(row, "^")[4]).value.Infinite?
    ensures DecodeDownstream(row) == Abort
  {
    InfiniteFieldAborts(Split(row, "^"));
  }

  /** `int(round(mhz * 1_000_000))` converts exactly a finite float, to the nearest hertz; an infinity raises OverflowError and NaN ValueError. */
  lemma FrequencyHzFinite(mhz: Num)
    ensures FrequencyHz(mhz).Success? <==> mhz.Finite?
    ensures mhz.Finite? ==> -0.5 <= FrequencyHz(mhz).value as real - mhz.value * 1000000.0 <= 0.5
    ensures mhz.Infinite? ==> FrequencyHz(mhz).error.kind == OverflowError
    ensures mhz.NaN? ==> FrequencyHz(mhz).error.kind == ValueError
  {
  }

  /**
   * The nine downstream columns: a channel is kept exactly when every numeric
   * column converts and the frequency is finite, and then holds the converted
   * values; an infinite frequency after two integer ids ends the table.
   */
  lemma DownstreamFieldsOutcome(f: seq<string>)
    requires |f| >= 9
    ensures var ids := ParseInt(f[0]).Some? && ParseInt(f[3]).Some?;
      var mhz := ParseFloat(f[4]);
      && (DownstreamFields(f).Keep? <==>
            ids && mhz.Some? && mhz.value.Finite? && ParseFloat(f[5]).Some? && ParseFloat(f[6]).Some?
            && ParseInt(f[7]).Some? && ParseInt(f[8]).Some?)
      && (DownstreamFields(f) == Abort <==> ids && mhz.Some? && mhz.value.Infinite?)
      && (DownstreamFields(f).Keep? ==>
            var c := DownstreamFields(f).channel;
            && ParseInt(f[0]) == Some(c.channelId) && c.lockStatus == Strip(f[1]) && c.modulation == Strip(f[2])
            && ParseInt(f[3]) == Some(c.chId)
            && -0.5 <= c.frequency as real - mhz.value.value * 1000000.0 <= 0.5
            && ParseFloat(f[5]) == Some(c.power) && ParseFloat(f[6]) == Some(c.snr)
            && ParseInt(f[7]) == Some(c.corrected) && ParseInt(f[8]) == Some(c.uncorrected))
  {
    if ParseInt(f[0]).Some? && ParseInt(f[3]).Some? {
      var mhz := ParseFloat(f[4]);
      assert DownstreamFields(f) == FrequencyStep(mhz, DownstreamRest(f));
      if mhz.Some? {
        FrequencyHzFinite(mhz.value);
        if mhz.value.Finite? {
          assert DownstreamFields(f) == DownstreamRest(f)(FrequencyHz(mhz.value).value);
        }
      }
    }
  }

  /**
   * The seven upstream columns: a channel is kept exactly when the ids, the
   * symbol rate and the power convert and the frequency is finite, and then
   * holds the converted values; an infinite frequency ends the table.
   */
  lemma UpstreamFieldsOutcome(f: seq<string>)
    requires |f| >= 7
    ensures var ids := ParseInt(f[0]).Some? && ParseInt(f[3]).Some? && ParseInt(f[4]).Some?;
      var mhz := ParseFloat(f[5]);
      && (UpstreamFields(f).Keep? <==> ids && mhz.Some? && mhz.value.Finite? && ParseFloat(f[6]).Some?)
      && (UpstreamFields(f) == Abort <==> ids && mhz.Some? && mhz.value.Infinite?)
      && (UpstreamFields(f).Keep? ==>
            var c := UpstreamFields(f).channel;
            && ParseInt(f[0]) == Some(c.channelId) && c.lockStatus == Strip(f[1]) && c.modulation == Strip(f[2])
            && ParseInt(f[3]) == Some(c.chId) && ParseInt(f[4]) == Some(c.symbolRate)
            && -0.5 <= c.frequency as real - mhz.value.value * 1000000.0 <= 0.5
            && ParseFloat(f[6]) == Some(c.power))
  {
    if ParseInt(f[0]).Some? && ParseInt(f[3]).Some? && ParseInt(f[4]).Some? {
      var mhz := ParseFloat(f[5]);
      assert UpstreamFields(f) == FrequencyStep(mhz, UpstreamRest(f));
      if mhz.Some? {
        FrequencyHzFinite(mhz.value);
        if mhz.value.Finite? {
          assert UpstreamFields(f) == UpstreamRest(f)(FrequencyHz(mhz.value).value);
        }
      }
    }
  }

  /**
   * A downstream row whose integer or float column fails to convert, or whose
   * frequency is NaN, is skipped (the row's ValueError handler); the table goes on.
   */
  lemma DownstreamBadNumberSkipped(row: string)
    ensures var f := Split(row, "^");
      |f| >= 9 && (|| ParseInt(f[0]).None? || ParseInt(f[3]).None? || ParseFloat(f[4]).None?
                   || ParseFloat(f[4]) == Some(NaN)
                   || (ParseFloat(f[4]).value.Finite?
                       && (ParseFloat(f[5]).None? || ParseFloat(f[6]).None? || ParseInt(f[7]).None? || ParseInt(f[8]).None?)))
      ==> DecodeDownstream(row) == Skip
  {
    var f := Split(row, "^");
    if Strip(row) != "" && |f| >= 9 {
      DownstreamFieldsOutcome(f);
    }
  }

  /** An upstream row whose integer or float column fails to convert, or whose frequency is NaN, is skipped. */
  lemma UpstreamBadNumberSkipped(row: string)
    ensures var f := Split(row, "^");
      |f| >= 7 && (|| ParseInt(f[0]).None? || ParseInt(f[3]).None? || ParseInt(f[4]).None? || ParseFloat(f[5]).None?
                   || ParseFloat(f[5]) == Some(NaN)
                   || (ParseFloat(f[5]).value.Finite? && ParseFloat(f[6]).None?))
      ==> DecodeUpstream(row) == Skip
  {
    var f := Split(row, "^");
    if Strip(row) != "" && |f| >= 7 {
      UpstreamFieldsOutcome(f);
    }
  }

  /** A missing response, or a missing or empty channel string, gives no channels. */
  lemma EmptyChannelDataNoRows(data: seq<(string, Json)>)
    ensures var down := Get(data, DownstreamResponse, JObj([]));
      down.JObj? && !Truthy(Get(down.members, "MotoConnDownstreamChannel", JStr(""))) ==> DownstreamFrom(data) == []
    ensures var up := Get(data, UpstreamResponse, JObj([]));
      up.JObj? && !Truthy(Get(up.members, "MotoConnUpstreamChannel", JStr(""))) ==> UpstreamFrom(data) == []
    ensures Lookup(data, DownstreamResponse) == None ==> DownstreamFrom(data) == []
    ensures Lookup(data, UpstreamResponse) == None ==> UpstreamFrom(data) == []
  {
  }

  // ---------------------------------------------------------------- system information

  /** `_set_if_present(source, source_key, target, target_key)`, on values. */
  function SetIfPresent(source: seq<(string, Json)>, sourceKey: string, target: seq<(string, Json)>, targetKey: string)
    : (r: seq<(string, Json)>)
    ensures Truthy(Get(source, sourceKey, JStr(""))) ==> Lookup(r, targetKey) == Some(Get(source, sourceKey, JStr("")))
    ensures !Truthy(Get(source, sourceKey, JStr(""))) ==> r == target
    ensures forall k :: k != targetKey ==> Lookup(r, k) == Lookup(target, k)
    ensures forall k :: k in Keys(r) ==> k in Keys(target) || k == targetKey
  {
    var value := Get(source, sourceKey, JStr(""));
    if Truthy(value) then
      SetItemLookup(target, targetKey, value);
      SetItemKeys(target, targetKey, value);
      assert forall k :: k != targetKey ==> Lookup(SetItem(target, targetKey, value), k) == Lookup(target, k) by {
        forall k | k != targetKey {
          SetItemOthers(target, targetKey, value, k);
        }
      }
      SetItem(target, targetKey, value)
    else target
  }

  /** The system-info dictionary so far, and whether an exception ended its extraction. */
  datatype Extraction = Extraction(info: seq<(string, Json)>, raised: bool)

  /** `_extract_connection_info(hnap_data, system_info)`. */
  function ExtractConnectionInfo(data: seq<(string, Json)>, info: seq<(string, Json)>): Extraction {
    var connection := Get(data, "GetMotoStatusConnectionInfoResponse", JObj([]));
    if !Truthy(connection) then Extraction(info, false)
    else
      match connection
      case JObj(m) =>
        Extraction(SetIfPresent(m, "MotoConnNetworkAccess",
                     SetIfPresent(m, "MotoConnSystemUpTime", info, "system_uptime"), "network_access"), false)
      case _ => Extraction(info, true)
  }

  /** `_extract_startup_info(hnap_data, system_info)`. */
  function ExtractStartupInfo(data: seq<(string, Json)>, info: seq<(string, Json)>): Extraction {
    var startup := Get(data, "GetMotoStatusStartupSequenceResponse", JObj([]));
    if !Truthy(startup) then Extraction(info, false)
    else
      match startup
      case JObj(m) =>
        var i1 := SetIfPresent(m, "MotoConnDSFreq", info, "downstream_frequency");
        var i2 := SetIfPresent(m, "MotoConnConnectivityStatus", i1, "connectivity_status");
        var i3 := SetIfPresent(m, "MotoConnBootStatus", i2, "boot_status");
        var i4 := SetIfPresent(m, "MotoConnSecurityStatus", i3, "security_status");
        Extraction(SetIfPresent(m, "MotoConnSecurityComment", i4, "security_comment"), false)
      case _ => Extraction(info, true)
  }

  /** `_parse_system_info_from_hnap(hnap_data)`. */
  function SystemInfoFrom(data: seq<(string, Json)>): seq<(string, Json)> {
    var connection := ExtractConnectionInfo(data, []);
    if connection.raised then connection.info
    else ExtractStartupInfo(data, connection.info).info
  }

  const SystemInfoKeys: set<string> := {"system_uptime", "network_access", "downstream_frequency",
    "connectivity_status", "boot_status", "security_status", "security_comment"}

  /** A system-info dictionary with only mapped keys, each once, and no falsy value. */
  predicate WellFormedInfo(info: seq<(string, Json)>) {
    && Distinct(Keys(info))
    && (forall k :: k in Keys(info) ==> k in SystemInfoKeys)
    && (forall e :: e in info ==> Truthy(e.1))
  }

  lemma SetIfPresentWellFormed(source: seq<(string, Json)>, sourceKey: string, target: seq<(string, Json)>,
                               targetKey: string)
    requires WellFormedInfo(target) && targetKey in SystemInfoKeys
    ensures WellFormedInfo(SetIfPresent(source, sourceKey, target, targetKey))
  {
    var value := Get(source, sourceKey, JStr(""));
    if Truthy(value) {
      SetItemDistinct(target, targetKey, value);
      SetItemEntries(target, targetKey, value);
    }
  }

  /** The uptime that `_extract_connection_info` reports, if any. */
  function ReportedUptime(data: seq<(string, Json)>): Option<Json> {
    var connection := Get(data, "GetMotoStatusConnectionInfoResponse", JObj([]));
    if connection.JObj? && Truthy(Get(connection.members, "MotoConnSystemUpTime", JStr("")))
    then Some(Get(connection.members, "MotoConnSystemUpTime", JStr(""))) else None
  }

  lemma ConnectionInfoShape(data: seq<(string, Json)>)
    ensures WellFormedInfo(ExtractConnectionInfo(data, []).info)
    ensures Lookup(ExtractConnectionInfo(data, []).info, "system_uptime") == ReportedUptime(data)
  {
    var connection := Get(data, "GetMotoStatusConnectionInfoResponse", JObj([]));
    if Truthy(connection) && connection.JObj? {
      var m := connection.members;
      var i1 := SetIfPresent(m, "MotoConnSystemUpTime", [], "system_uptime");
      SetIfPresentWellFormed(m, "MotoConnSystemUpTime", [], "system_uptime");
      SetIfPresentWellFormed(m, "MotoConnNetworkAccess", i1, "network_access");
      assert Lookup(SetIfPresent(m, "MotoConnNetworkAccess", i1, "network_access"), "system_uptime")
          == Lookup(i1, "system_uptime");
    }
  }

  lemma StartupInfoShape(data: seq<(string, Json)>, info: seq<(string, Json)>)
    requires WellFormedInfo(info)
    ensures WellFormedInfo(ExtractStartupInfo(data, info).info)
    ensures Lookup(ExtractStartupInfo(data, info).info, "system_uptime") == Lookup(info, "system_uptime")
  {
    var startup := Get(data, "GetMotoStatusStartupSequenceResponse", JObj([]));
    if Truthy(startup) && startup.JObj? {
      var m := startup.members;
      var i1 := SetIfPresent(m, "MotoConnDSFreq", info, "downstream_frequency");
      var i2 := SetIfPresent(m, "MotoConnConnectivityStatus", i1, "connectivity_status");
      var i3 := SetIfPresent(m, "MotoConnBootStatus", i2, "boot_status");
      var i4 := SetIfPresent(m, "MotoConnSecurityStatus", i3, "security_status");
      SetIfPresentWellFormed(m, "MotoConnDSFreq", info, "downstream_frequency");
      SetIfPresentWellFormed(m, "MotoConnConnectivityStatus", i1, "connectivity_status");
      SetIfPresentWellFormed(m, "MotoConnBootStatus", i2, "boot_status");
      SetIfPresentWellFormed(m, "MotoConnSecurityStatus", i3, "security_status");
      SetIfPresentWellFormed(m, "MotoConnSecurityComment", i4, "security_comment");
    }
  }

  /**
   * The system information holds only the seven mapped keys, each once and
   * never with a falsy value; the uptime is the connection info's
   * MotoConnSystemUpTime exactly when that is a truthy member of a dict.
   */
  lemma SystemInfoShape(data: seq<(string, Json)>)
    ensures WellFormedInfo(SystemInfoFrom(data))
    ensures Lookup(SystemInfoFrom(data), "system_uptime") == ReportedUptime(data)
  {
    ConnectionInfoShape(data);
    StartupInfoShape(data, ExtractConnectionInfo(data, []).info);
  }

  // ---------------------------------------------------------------- parse

  const HnapActions: seq<string> := [
    "GetMotoStatusStartupSequence", "GetMotoStatusConnectionInfo", "GetMotoStatusDownstreamChannelInfo",
    "GetMotoStatusUpstreamChannelInfo", "GetMotoLagStatus"]

  /** `hnap_data[f"{action}Response"]`: the call's result, or `{}` when it raised. */
  function Filed(result: Result<Json, Exception>): Json {
    if result.Success? then result.value else JObj([])
  }

  /** What one call of the fetch loop files under `<action>Response`, and the requests it posted. */
  datatype Posted = Posted(filed: Json, sent: seq<Request>)

  /** One SOAP call of the fetch loop: the action, the reply the device gives, the clock reading. */
  type SoapCall = (string, Reply, real) -> Posted

  /** `_send_soap_action(session, base_url, action, {}, private_key)` as the fetch loop stores it. */
  function HnapPost(h: HexDigest, baseUrl: string, key: Json, action: string, reply: Reply, now: real): Posted {
    var ex := SoapExchange(h, baseUrl, action, [], key, reply, now);
    Posted(Filed(ex.result), ex.sent)
  }

  /** `HnapPost` as a `SoapCall`. */
  function HnapCall(h: HexDigest, baseUrl: string, key: Json): SoapCall {
    (action: string, reply: Reply, now: real) => HnapPost(h, baseUrl, key, action, reply, now)
  }

  /** What each call of the fetch loop gave, in order, and all the requests posted. */
  datatype FetchTrace = FetchTrace(posted: seq<Posted>, sent: seq<Request>)

  /**
   * The fetch loop of `_parse_with_hnap` over `actions`, each action made by
   * `call`, the clock having been read `calls` times before.
   */
  function Fetch(call: SoapCall, actions: seq<string>, replies: seq<Reply>, readings: nat -> real, calls: nat)
    : (t: FetchTrace)
    ensures |t.posted| == |actions|
    decreases |actions|
  {
    if |actions| == 0 then FetchTrace([], [])
    else
      var previous := Fetch(call, actions[..|actions| - 1], replies, readings, calls);
      var action := actions[|actions| - 1];
      var p := call(action, ReplyAt(replies, |previous.sent|), readings(calls + |actions| - 1));
      FetchTrace(previous.posted + [p], previous.sent + p.sent)
  }

  /** The `hnap_data` dictionary: each action's outcome stored under `<action>Response`, in call order. */
  function HnapData(actions: seq<string>, posted: seq<Posted>): seq<(string, Json)>
    requires |posted| == |actions|
  {
    if |actions| == 0 then []
    else SetItem(HnapData(actions[..|actions| - 1], posted[..|posted| - 1]),
                 actions[|actions| - 1] + "Response", posted[|posted| - 1].filed)
  }

  /** `hnap_data` after the fetch loop over `actions`. */
  function FetchedData(call: SoapCall, actions: seq<string>, replies: seq<Reply>, readings: nat -> real, calls: nat)
    : seq<(string, Json)>
  {
    HnapData(actions, Fetch(call, actions, replies, readings, calls).posted)
  }

  /** `f"{action}Response"` for each action. */
  function ResponseNames(actions: seq<string>): (names: seq<string>)
    ensures |names| == |actions|
  {
    seq(|actions|, i requires 0 <= i < |actions| => actions[i] + "Response")
  }

  /** `session.cookies.get("PrivateKey", "withoutloginkey")`. */
  function PrivateKeyCookie(cookies: map<string, Json>): Json {
    if "PrivateKey" in cookies then cookies["PrivateKey"] else JStr(DefaultKey)
  }

  function ResultFrom(data: seq<(string, Json)>): Mb8600Result {
    ParseResult(DownstreamFrom(data), UpstreamFrom(data), SystemInfoFrom(data), None)
  }

  /** One step of the fetch loop: the trace after `i + 1` actions extends the trace after `i`. */
  lemma FetchStep(call: SoapCall, actions: seq<string>, i: nat, replies: seq<Reply>, readings: nat -> real, calls: nat)
    requires i < |actions|
    ensures var previous := Fetch(call, actions[..i], replies, readings, calls);
      var p := call(actions[i], ReplyAt(replies, |previous.sent|), readings(calls + i));
      Fetch(call, actions[..i + 1], replies, readings, calls) == FetchTrace(previous.posted + [p], previous.sent + p.sent)
  {
    assert actions[..i + 1][..i] == actions[..i];
  }

  /** One more call files one more entry. */
  lemma HnapDataStep(actions: seq<string>, posted: seq<Posted>, action: string, p: Posted)
    requires |posted| == |actions|
    ensures HnapData(actions + [action], posted + [p]) == SetItem(HnapData(actions, posted), action + "Response", p.filed)
  {
    assert (actions + [action])[..|actions|] == actions;
    assert (posted + [p])[..|posted|] == posted;
  }

  /** What one pass of the fetch loop adds to the trace, to `hnap_data` and to the replies used. */
  lemma FetchLoopStep(call: SoapCall, actions: seq<string>, i: nat, replies: seq<Reply>, readings: nat -> real,
                      calls: nat, trace: FetchTrace, p: Posted)
    requires i < |actions| && trace == Fetch(call, actions[..i], replies, readings, calls)
    requires p == call(actions[i], ReplyAt(replies, |trace.sent|), readings(calls + i))
    ensures Fetch(call, actions[..i + 1], replies, readings, calls) == FetchTrace(trace.posted + [p], trace.sent + p.sent)
    ensures HnapData(actions[..i + 1], trace.posted + [p])
         == SetItem(HnapData(actions[..i], trace.posted), actions[i] + "Response", p.filed)
    ensures ReplyAt(Consume(replies, |trace.sent|), 0) == ReplyAt(replies, |trace.sent|)
    ensures Consume(Consume(replies, |trace.sent|), |p.sent|) == Consume(replies, |trace.sent + p.sent|)
  {
    FetchStep(call, actions, i, replies, readings, calls);
    HnapDataStep(actions[..i], trace.posted, actions[i], p);
    assert actions[..i] + [actions[i]] == actions[..i + 1];
    ConsumeStep(replies, |trace.sent|);
    ConsumeTwice(replies, |trace.sent|, |p.sent|);
  }

  /**
   * The state of the fetch loop after its first `i` actions: the trace so far,
   * `hnap_data` built from it, and the session and clock advanced by it.
   */
  ghost predicate Fetched(call: SoapCall, actions: seq<string>, i: nat, replies0: seq<Reply>, readings: nat -> real,
                          calls0: nat, sent0: seq<Request>, trace: FetchTrace, data: seq<(string, Json)>,
                          sent: seq<Request>, replies: seq<Reply>, calls: nat)
  {
    && i <= |actions|
    && trace == Fetch(call, actions[..i], replies0, readings, calls0)
    && data == HnapData(actions[..i], trace.posted)
    && sent == sent0 + trace.sent && replies == Consume(replies0, |trace.sent|)
    && calls == calls0 + i
  }

  /** The loop state after one more call, from what that call sent, used and filed. */
  lemma FetchedStep(call: SoapCall, actions: seq<string>, i: nat, replies0: seq<Reply>, readings: nat -> real,
                    calls0: nat, sent0: seq<Request>, trace: FetchTrace, data: seq<(string, Json)>,
                    sent: seq<Request>, replies: seq<Reply>, calls: nat, p: Posted,
                    data': seq<(string, Json)>, sent': seq<Request>, replies': seq<Reply>)
    requires i < |actions|
    requires Fetched(call, actions, i, replies0, readings, calls0, sent0, trace, data, sent, replies, calls)
    requires p == call(actions[i], ReplyAt(replies, 0), readings(calls))
    requires data' == SetItem(data, actions[i] + "Response", p.filed)
    requires sent' == sent + p.sent && replies' == Consume(replies, |p.sent|)
    ensures Fetched(call, actions, i + 1, replies0, readings, calls0, sent0,
                    FetchTrace(trace.posted + [p], trace.sent + p.sent), data', sent', replies', calls + 1)
  {
    ConsumeStep(replies0, |trace.sent|);
    FetchLoopStep(call, actions, i, replies0, readings, calls0, trace, p);
    AppendAssoc(sent0, trace.sent, p.sent);
  }

  /** One pass of the loop body: call `actions[i]` and store what it gave under `<action>Response`. */
  method FetchOne(h: HexDigest, session: Session, clock: Clock, baseUrl: string, key: Json, actions: seq<string>,
                  i: nat, data: seq<(string, Json)>, ghost call: SoapCall, ghost replies0: seq<Reply>,
                  ghost calls0: nat, ghost sent0: seq<Request>, ghost trace: FetchTrace)
    returns (data': seq<(string, Json)>, ghost trace': FetchTrace)
    requires i < |actions| && call == HnapCall(h, baseUrl, key)
    requires Fetched(call, actions, i, replies0, clock.readings, calls0, sent0, trace, data,
                     session.sent, session.replies, clock.calls)
    modifies session, clock
    ensures Fetched(call, actions, i + 1, replies0, clock.readings, calls0, sent0, trace', data',
                    session.sent, session.replies, clock.calls)
    ensures session.cookies == old(session.cookies)
  {
    ghost var sent, replies, calls := session.sent, session.replies, clock.calls;
    ghost var reply, now := ReplyAt(replies, 0), clock.readings(calls);
    ghost var p := call(actions[i], reply, now);
    data' := FileCall(h, session, clock, baseUrl, key, actions[i], data, call, reply, now);
    FetchedStep(call, actions, i, replies0, clock.readings, calls0, sent0, trace, data, sent, replies, calls, p,
                data', session.sent, session.replies);
    trace' := FetchTrace(trace.posted + [p], trace.sent + p.sent);
  }

  /** Call `action` and store what it gave under `<action>Response`. */
  method FileCall(h: HexDigest, session: Session, clock: Clock, baseUrl: string, key: Json, action: string,
                  data: seq<(string, Json)>, ghost call: SoapCall, ghost reply: Reply, ghost now: real)
    returns (data': seq<(string, Json)>)
    requires call == HnapCall(h, baseUrl, key)
    requires reply == ReplyAt(session.replies, 0) && now == clock.readings(clock.calls)
    modifies session, clock
    ensures var p := call(action, reply, now);
      && data' == SetItem(data, action + "Response", p.filed)
      && session.sent == old(session.sent) + p.sent
      && session.replies == Consume(old(session.replies), |p.sent|)
      && session.cookies == old(session.cookies)
      && clock.calls == old(clock.calls) + 1
  {
    assert call(action, reply, now) == HnapPost(h, baseUrl, key, action, reply, now);
    var response := SendSoapAction(h, session, clock, baseUrl, action, [], key);
    data' := SetItem(data, action + "Response", Filed(response));
  }

  /** The `for action in actions` loop of `_parse_with_hnap`, with `key` read from the cookie jar. */
  method FetchAll(h: HexDigest, session: Session, clock: Clock, baseUrl: string, key: Json, actions: seq<string>)
    returns (data: seq<(string, Json)>)
    modifies session, clock
    ensures var t := Fetch(HnapCall(h, baseUrl, key), actions, old(session.replies), clock.readings, old(clock.calls));
      && data == HnapData(actions, t.posted)
      && session.sent == old(session.sent) + t.sent
      && session.replies == Consume(old(session.replies), |t.sent|)
      && session.cookies == old(session.cookies)
      && clock.calls == old(clock.calls) + |actions|
  {
    ghost var call := HnapCall(h, baseUrl, key);
    ghost var sent0, replies0, calls0 := session.sent, session.replies, clock.calls;
    ghost var trace := FetchTrace([], []);
    data := [];
    var i := 0;
    while i < |actions|
      invariant Fetched(call, actions, i, replies0, clock.readings, calls0, sent0, trace, data,
                        session.sent, session.replies, clock.calls)
      invariant session.cookies == old(session.cookies)
    {
      data, trace := FetchOne(h, session, clock, baseUrl, key, actions, i, data, call, replies0, calls0, sent0, trace);
      i := i + 1;
    }
    assert actions[..i] == actions;
  }

  /** `_parse_with_hnap(session, base_url)`. */
  method ParseWithHnap(h: HexDigest, session: Session, clock: Clock, baseUrl: string) returns (result: Mb8600Result)
    modifies session, clock
    ensures var t := Fetch(HnapCall(h, baseUrl, PrivateKeyCookie(old(session.cookies))), HnapActions, old(session.replies),
                           clock.readings, old(clock.calls));
      && result == ResultFrom(HnapData(HnapActions, t.posted))
      && session.sent == old(session.sent) + t.sent
      && session.replies == Consume(old(session.replies), |t.sent|)
      && session.cookies == old(session.cookies)
      && clock.calls == old(clock.calls) + |HnapActions|
  {
    var key := if "PrivateKey" in session.cookies then session.cookies["PrivateKey"] else JStr(DefaultKey);
    var data := FetchAll(h, session, clock, baseUrl, key, HnapActions);
    var downstream := ParseDownstream(data);
    var upstream := ParseUpstream(data);
    result := ParseResult(downstream, upstream, SystemInfoFrom(data), None);
  }

  const MissingArguments: Exception := Exception(ValueError, "MB8600 requires session and base_url for HNAP calls")

  /** `parse(soup, session, base_url)`: `session` null and `baseUrl` None stand for Python's None. */
  method Parse(h: HexDigest, session: Session?, clock: Clock, baseUrl: Option<string>)
    returns (r: Result<Mb8600Result, Exception>)
    modifies session, clock
    ensures session == null || baseUrl.None? || baseUrl.value == "" ==>
      r == Failure(MissingArguments) && clock.calls == old(clock.calls)
      && (session != null ==> session.sent == old(session.sent) && session.replies == old(session.replies)
                              && session.cookies == old(session.cookies))
    ensures session != null && baseUrl.Some? && baseUrl.value != "" ==>
      var t := Fetch(HnapCall(h, baseUrl.value, PrivateKeyCookie(old(session.cookies))), HnapActions, old(session.replies),
                     clock.readings, old(clock.calls));
      && r == Success(ResultFrom(HnapData(HnapActions, t.posted)))
      && session.sent == old(session.sent) + t.sent
      && session.replies == Consume(old(session.replies), |t.sent|)
      && session.cookies == old(session.cookies)
      && clock.calls == old(clock.calls) + |HnapActions|
  {
    if session == null || baseUrl.None? || baseUrl.value == "" {
      return Failure(MissingArguments);
    }
    var result := ParseWithHnap(h, session, clock, baseUrl.value);
    r := Success(result);
  }

  /** The fetch loop files one `<action>Response` entry per action, in order, whatever the device answers. */
  lemma {:induction false} HnapDataKeys(actions: seq<string>, posted: seq<Posted>)
    requires |posted| == |actions| && Distinct(ResponseNames(actions))
    ensures Keys(HnapData(actions, posted)) == ResponseNames(actions)
    decreases |actions|
  {
    if |actions| > 0 {
      var prefix := actions[..|actions| - 1];
      var names := ResponseNames(actions);
      var last := names[|prefix|];
      assert names == ResponseNames(prefix) + [last];
      assert Distinct(ResponseNames(prefix)) by {
        forall i, j | 0 <= i < j < |prefix| ensures ResponseNames(prefix)[i] != ResponseNames(prefix)[j] {
          assert names[i] == ResponseNames(prefix)[i] && names[j] == ResponseNames(prefix)[j];
        }
      }
      HnapDataKeys(prefix, posted[..|posted| - 1]);
      SetItemKeys(HnapData(prefix, posted[..|posted| - 1]), last, posted[|posted| - 1].filed);
      assert last !in ResponseNames(prefix) by {
        forall i | 0 <= i < |prefix| ensures ResponseNames(prefix)[i] != last {
          assert names[i] == ResponseNames(prefix)[i];
        }
      }
    }
  }

  /** `hnap_data` has exactly the five response keys, in the order the actions are called. */
  lemma ParsedDataKeys(call: SoapCall, replies: seq<Reply>, readings: nat -> real, calls: nat)
    ensures Keys(FetchedData(call, HnapActions, replies, readings, calls)) == ResponseNames(HnapActions)
    ensures Distinct(ResponseNames(HnapActions))
  {
    var names := ResponseNames(HnapActions);
    forall i, j | 0 <= i < j < |names| ensures names[i] != names[j] {
      assert |names[i]| == |HnapActions[i]| + 8 && |names[j]| == |HnapActions[j]| + 8;
    }
    HnapDataKeys(HnapActions, Fetch(call, HnapActions, replies, readings, calls).posted);
  }

  /** Calls that all raise and post nothing leave every `hnap_data` entry `{}`. */
  lemma {:induction false} EmptyFilings(actions: seq<string>, posted: seq<Posted>)
    requires |posted| == |actions|
    requires forall i :: 0 <= i < |posted| ==> posted[i].filed == JObj([])
    ensures forall k :: Get(HnapData(actions, posted), k, JObj([])) == JObj([])
    decreases |actions|
  {
    if |actions| > 0 {
      EmptyFilings(actions[..|actions| - 1], posted[..|posted| - 1]);
      var previous := HnapData(actions[..|actions| - 1], posted[..|posted| - 1]);
      var key := actions[|actions| - 1] + "Response";
      assert posted[|posted| - 1].filed == JObj([]);
      assert HnapData(actions, posted) == SetItem(previous, key, JObj([]));
      forall k ensures Get(HnapData(actions, posted), k, JObj([])) == JObj([]) {
        if k == key {
          SetItemLookup(previous, key, JObj([]));
        } else {
          SetItemOthers(previous, key, JObj([]), k);
          assert Get(previous, k, JObj([])) == JObj([]);
        }
      }
    }
  }

  /** With a key that is not text, every call raises before posting. */
  lemma {:induction false} UnusableKeyPostsNothing(h: HexDigest, baseUrl: string, key: Json, actions: seq<string>,
                                                   replies: seq<Reply>, readings: nat -> real, calls: nat)
    requires !key.JStr?
    ensures var t := Fetch(HnapCall(h, baseUrl, key), actions, replies, readings, calls);
      t.sent == [] && forall i :: 0 <= i < |t.posted| ==> t.posted[i].filed == JObj([])
    decreases |actions|
  {
    if |actions| > 0 {
      UnusableKeyPostsNothing(h, baseUrl, key, actions[..|actions| - 1], replies, readings, calls);
    }
  }

  /** Parsing with a key that is not text posts nothing and reports no channels and no system information. */
  lemma UnusableKeyFetchesNothing(h: HexDigest, baseUrl: string, key: Json, replies: seq<Reply>,
                                  readings: nat -> real, calls: nat)
    requires !key.JStr?
    ensures var t := Fetch(HnapCall(h, baseUrl, key), HnapActions, replies, readings, calls);
      t.sent == [] && ResultFrom(HnapData(HnapActions, t.posted)) == ParseResult([], [], [], None)
  {
    var t := Fetch(HnapCall(h, baseUrl, key), HnapActions, replies, readings, calls);
    UnusableKeyPostsNothing(h, baseUrl, key, HnapActions, replies, readings, calls);
    EmptyFilings(HnapActions, t.posted);
    var data := HnapData(HnapActions, t.posted);
    assert Get(data, DownstreamResponse, JObj([])) == JObj([]);
    assert Get(data, UpstreamResponse, JObj([])) == JObj([]);
    assert Get(data, "GetMotoStatusConnectionInfoResponse", JObj([])) == JObj([]);
    assert Get(data, "GetMotoStatusStartupSequenceResponse", JObj([])) == JObj([]);
  }
}
