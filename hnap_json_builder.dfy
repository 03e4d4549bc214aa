/**
 * The JSON HNAP request builder used by MB8611 firmwares: single and batched
 * action calls, and the two-step HMAC-MD5 challenge-response login that stores
 * the private key every later HNAP_AUTH header is signed with.
 */
module HnapJsonBuilder {
  import opened Wrappers
  import opened Text
  import opened PyJson
  import opened Md5
  import opened Http
  import opened HnapAuth

  /** The key `_get_hnap_auth` signs with: the stored private key, or "withoutloginkey" when none (or an empty one) is stored. */
  function SigningKey(privateKey: Option<string>): string {
    if privateKey.Some? && privateKey.value != "" then privateKey.value else DefaultKey
  }

  /** A derived private key is always the key that gets signed with. */
  lemma SigningKeyOfDigest(key: string)
    requires IsUpperHexDigest(key)
    ensures SigningKey(Some(key)) == key
  {
    DigestIsWord(key);
  }

  /** The headers of every JSON HNAP POST. */
  function JsonHeaders(namespace: string, action: string, auth: string): seq<(string, string)> {
    [("SOAPAction", SoapActionUri(namespace, action)), ("HNAP_AUTH", auth), ("Content-Type", "application/json")]
  }

  /** `{action: {} for action in actions}`. */
  function ActionObjects(actions: seq<string>): seq<(string, Json)>
    decreases |actions|
  {
    if |actions| == 0 then []
    else SetItem(ActionObjects(actions[..|actions| - 1]), actions[|actions| - 1], JObj([]))
  }

  /** The batch body holds one empty object per distinct action, each key once. */
  lemma {:induction false} ActionObjectsShape(actions: seq<string>)
    ensures forall a :: a in Keys(ActionObjects(actions)) <==> a in actions
    ensures Distinct(Keys(ActionObjects(actions)))
    ensures forall a :: a in actions ==> Lookup(ActionObjects(actions), a) == Some(JObj([]))
  {
    ActionObjectsKeys(actions);
    ActionObjectsDistinct(actions);
    ActionObjectsLookup(actions);
  }

  lemma {:induction false} ActionObjectsKeys(actions: seq<string>)
    ensures forall a :: a in Keys(ActionObjects(actions)) <==> a in actions
    decreases |actions|
  {
    if |actions| > 0 {
      var prefix := actions[..|actions| - 1];
      var last := actions[|actions| - 1];
      ActionObjectsKeys(prefix);
      SetItemKeys(ActionObjects(prefix), last, JObj([]));
      assert actions == prefix + [last];
    }
  }

  lemma {:induction false} ActionObjectsDistinct(actions: seq<string>)
    ensures Distinct(Keys(ActionObjects(actions)))
    decreases |actions|
  {
    if |actions| > 0 {
      var prefix := actions[..|actions| - 1];
      ActionObjectsDistinct(prefix);
      SetItemDistinct(ActionObjects(prefix), actions[|actions| - 1], JObj([]));
    }
  }

  lemma {:induction false} ActionObjectsLookup(actions: seq<string>)
    ensures forall a :: a in actions ==> Lookup(ActionObjects(actions), a) == Some(JObj([]))
    decreases |actions|
  {
    if |actions| > 0 {
      var prefix := actions[..|actions| - 1];
      var last := actions[|actions| - 1];
      var before := ActionObjects(prefix);
      assert ActionObjects(actions) == SetItem(before, last, JObj([]));
      forall a | a in actions ensures Lookup(ActionObjects(actions), a) == Some(JObj([])) {
        if a == last {
          SetItemLookup(before, last, JObj([]));
        } else {
          calc {
            Lookup(SetItem(before, last, JObj([])), a);
            { SetItemOthers(before, last, JObj([]), a); }
            Lookup(before, a);
            { assert actions == prefix + [last]; ActionObjectsLookup(prefix); }
            Some(JObj([]));
          }
        }
      }
    }
  }

  /** The `{"Login": {...}}` body of either login step. */
  function LoginBody(phase: string, username: string, loginPassword: string): Json {
    JObj([("Login", JObj([("Action", JStr(phase)), ("Username", JStr(username)),
                          ("LoginPassword", JStr(loginPassword)), ("Captcha", JStr(""))]))])
  }

  /** `a.get(key)` on an optional value, as `bool(...)` sees it. */
  predicate PresentAndTruthy(v: Option<Json>) {
    v.Some? && Truthy(v.value)
  }

  /** How the challenge response is read. */
  datatype Challenge =
    | Accepted(challenge: string, cookie: Json, publicKey: string)
    | Rejected   // a required field is missing or falsy: (False, text)
    | Crashed    // an exception is raised reading or using the fields: (False, "")

  /** `LoginResponse.Challenge`, `.Cookie` and `.PublicKey` of the first reply. */
  function ReadChallenge(body: Json): (c: Challenge)
    ensures c.Accepted? ==> c.challenge != "" && c.publicKey != "" && Truthy(c.cookie)
  {
    match GetMethod(body, "LoginResponse", JObj([]))
    case Failure(_) => Crashed
    case Success(response) =>
      match response
      case JObj(fields) =>
        var challenge := Lookup(fields, "Challenge");
        var cookie := Lookup(fields, "Cookie");
        var publicKey := Lookup(fields, "PublicKey");
        if !(PresentAndTruthy(challenge) && PresentAndTruthy(cookie) && PresentAndTruthy(publicKey)) then Rejected
        else if challenge.value.JStr? && publicKey.value.JStr? then
          Accepted(challenge.value.s, cookie.value, publicKey.value.s)
        else Crashed
      case _ => Crashed
  }

  /** `LoginResponse.LoginResult` of the second reply; None when reading it raises. */
  function ReadLoginResult(body: Json): Option<Json> {
    match GetMethod(body, "LoginResponse", JObj([]))
    case Failure(_) => None
    case Success(response) =>
      match GetMethod(response, "LoginResult", JStr(""))
      case Failure(_) => None
      case Success(result) => Some(result)
  }

  predicate IsLoginSuccess(result: Json) {
    result == JStr("OK") || result == JStr("SUCCESS")
  }

  /** The private key: HMAC_MD5(PublicKey + password, Challenge). */
  function PrivateKeyOf(h: HexDigest, challenge: string, publicKey: string, password: string): string {
    HmacMd5Upper(h, publicKey + password, challenge)
  }

  /** The login password: HMAC_MD5(PrivateKey, Challenge). */
  function LoginPasswordOf(h: HexDigest, challenge: string, publicKey: string, password: string): string {
    HmacMd5Upper(h, PrivateKeyOf(h, challenge, publicKey, password), challenge)
  }

  /** Everything one `login` call does: its result, the private key left stored, the uid cookie it set, the requests it sent. */
  datatype LoginTrace = LoginTrace(ok: bool, detail: string, key: Option<string>, uid: Option<Json>, sent: seq<Request>)

  /**
   * `login(session, base_url, username, password)` when the stored key is `oldKey`,
   * the device answers with `replies` and the clock reads `t1` and then `t2`.
   */
  function LoginRun(h: HexDigest, endpoint: string, namespace: string, oldKey: Option<string>,
                    baseUrl: string, username: string, password: string,
                    replies: seq<Reply>, t1: real, t2: real): LoginTrace
  {
    var url := baseUrl + endpoint;
    var first := Request(url, JsonHeaders(namespace, "Login",
                           AuthHeader(h, SigningKey(oldKey), namespace, "Login", TruncatedTimestamp(t1))),
                         LoginBody("request", username, ""));
    var rest := ChallengeReplied(h, url, namespace, oldKey, username, password, ReplyAt(replies, 0), ReplyAt(replies, 1), t2);
    rest.(sent := [first] + rest.sent)
  }

  /** The rest of `login` once the challenge request has been answered by `reply`; `sent` holds what it sends after. */
  function ChallengeReplied(h: HexDigest, url: string, namespace: string, oldKey: Option<string>,
                            username: string, password: string, reply: Reply, next: Reply, t2: real): LoginTrace
  {
    match reply
    case Raised(_) => LoginTrace(false, "", None, None, [])
    case Response(status, _, text, json) =>
      if status != 200 || json.Failure? then LoginTrace(false, text, oldKey, None, [])
      else
        match ReadChallenge(json.value)
        case Rejected => LoginTrace(false, text, oldKey, None, [])
        case Crashed => LoginTrace(false, "", None, None, [])
        case Accepted(challenge, cookie, publicKey) =>
          FinishLogin(h, url, namespace, username, password, challenge, cookie, publicKey, next, t2)
  }

  /** The second step of a login whose challenge was accepted: derive the keys, set the uid cookie, send the login request. */
  function FinishLogin(h: HexDigest, url: string, namespace: string, username: string, password: string,
                       challenge: string, cookie: Json, publicKey: string, reply: Reply, t2: real): LoginTrace
  {
    var key := PrivateKeyOf(h, challenge, publicKey, password);
    var second := Request(url, JsonHeaders(namespace, "Login",
                            AuthHeader(h, SigningKey(Some(key)), namespace, "Login", TruncatedTimestamp(t2))),
                          LoginBody("login", username, LoginPasswordOf(h, challenge, publicKey, password)));
    var sent := [second];
    match reply
    case Raised(_) => LoginTrace(false, "", None, Some(cookie), sent)
    case Response(status, _, text, json) =>
      if status != 200 then LoginTrace(false, text, None, Some(cookie), sent)
      else if json.Failure? then LoginTrace(true, text, Some(key), Some(cookie), sent)
      else
        match ReadLoginResult(json.value)
        case None => LoginTrace(false, "", None, Some(cookie), sent)
        case Some(result) =>
          if IsLoginSuccess(result) then LoginTrace(true, text, Some(key), Some(cookie), sent)
          else LoginTrace(false, text, None, Some(cookie), sent)
  }

  /** What a single or batched call returns: the response text, or the exception it raises. */
  function CallOutcome(reply: Reply, url: string): (r: Result<string, Exception>)
    ensures r.Success? <==> reply.Response? && !(400 <= reply.status < 600)
    ensures r.Success? ==> r.value == reply.text
    ensures reply.Raised? ==> r == Failure(reply.error)
    ensures reply.Response? && r.Failure? ==> r.error.kind == HttpError
  {
    match reply
    case Raised(e) => Failure(e)
    case Response(status, reason, text, _) =>
      match StatusError(status, reason, url)
      case Some(e) => Failure(e)
      case None => Success(text)
  }

  class HnapJsonRequestBuilder {
    const endpoint: string
    const namespace: string
    const hmac: HexDigest
    var privateKey: Option<string>

    constructor (endpoint: string, namespace: string, hmac: HexDigest)
      ensures this.endpoint == endpoint && this.namespace == namespace && this.hmac == hmac
      ensures privateKey == None
    {
      this.endpoint := endpoint;
      this.namespace := namespace;
      this.hmac := hmac;
      privateKey := None;
    }

    /** `_get_hnap_auth(action)`: reads the clock once. */
    method GetHnapAuth(clock: Clock, action: string) returns (header: string)
      modifies clock
      ensures clock.calls == old(clock.calls) + 1
      ensures header == AuthHeader(hmac, SigningKey(privateKey), namespace, action,
                                   TruncatedTimestamp(clock.readings(old(clock.calls))))
    {
      var key := if privateKey.None? || privateKey.value == "" then DefaultKey else privateKey.value;
      var now := clock.Now();
      var timestamp := TruncatedTimestamp(now);
      header := HmacMd5Upper(hmac, key, Decimal(timestamp) + SoapActionUri(namespace, action)) + " " + Decimal(timestamp);
    }

    /** `call_single(session, base_url, action, params)`; `params` None is `JNull`. */
    method CallSingle(session: Session, clock: Clock, baseUrl: string, action: string, params: Json)
      returns (r: Result<string, Exception>)
      modifies session, clock
      ensures var request := Request(baseUrl + endpoint,
                                     JsonHeaders(namespace, action,
                                       AuthHeader(hmac, SigningKey(privateKey), namespace, action,
                                                  TruncatedTimestamp(clock.readings(old(clock.calls))))),
                                     JObj([(action, if Truthy(params) then params else JObj([]))]));
        session.sent == old(session.sent) + [request]
      ensures r == CallOutcome(ReplyAt(old(session.replies), 0), baseUrl + endpoint)
      ensures session.replies == Consume(old(session.replies), 1) && session.cookies == old(session.cookies)
      ensures clock.calls == old(clock.calls) + 1
    {
      var body := JObj([(action, if Truthy(params) then params else JObj([]))]);
      var auth := GetHnapAuth(clock, action);
      var reply := session.Post(Request(baseUrl + endpoint, JsonHeaders(namespace, action, auth), body));
      r := CallOutcome(reply, baseUrl + endpoint);
    }

    /** `call_multiple(session, base_url, actions)`: one GetMultipleHNAPs POST. */
    method CallMultiple(session: Session, clock: Clock, baseUrl: string, actions: seq<string>)
      returns (r: Result<string, Exception>)
      modifies session, clock
      ensures var request := Request(baseUrl + endpoint,
                                     JsonHeaders(namespace, "GetMultipleHNAPs",
                                       AuthHeader(hmac, SigningKey(privateKey), namespace, "GetMultipleHNAPs",
                                                  TruncatedTimestamp(clock.readings(old(clock.calls))))),
                                     JObj([("GetMultipleHNAPs", JObj(ActionObjects(actions)))]));
        session.sent == old(session.sent) + [request]
      ensures r == CallOutcome(ReplyAt(old(session.replies), 0), baseUrl + endpoint)
      ensures session.replies == Consume(old(session.replies), 1) && session.cookies == old(session.cookies)
      ensures clock.calls == old(clock.calls) + 1
    {
      var body := JObj([("GetMultipleHNAPs", JObj(ActionObjects(actions)))]);
      var auth := GetHnapAuth(clock, "GetMultipleHNAPs");
      var reply := session.Post(Request(baseUrl + endpoint, JsonHeaders(namespace, "GetMultipleHNAPs", auth), body));
      r := CallOutcome(reply, baseUrl + endpoint);
    }

    /** `login(session, base_url, username, password)`. */
    method Login(session: Session, clock: Clock, baseUrl: string, username: string, password: string)
      returns (ok: bool, detail: string)
      modifies this, session, clock
      ensures var t := LoginRun(hmac, endpoint, namespace, old(privateKey), baseUrl, username, password,
                                old(session.replies), clock.readings(old(clock.calls)),
                                clock.readings(old(clock.calls) + 1));
        && ok == t.ok && detail == t.detail && privateKey == t.key
        && session.sent == old(session.sent) + t.sent
        && session.replies == Consume(old(session.replies), |t.sent|)
        && session.cookies == (if t.uid.Some? then old(session.cookies)["uid" := t.uid.value] else old(session.cookies))
        && clock.calls == old(clock.calls) + |t.sent|
    {
      ghost var replies := session.replies;
      var url := baseUrl + endpoint;
      var auth := GetHnapAuth(clock, "Login");
      var first := Request(url, JsonHeaders(namespace, "Login", auth), LoginBody("request", username, ""));
      var reply := session.Post(first);
      ConsumeStep(replies, 1);
      ok, detail := ReadChallengeReply(session, clock, url, username, password, reply);
      ghost var rest := ChallengeReplied(hmac, url, namespace, old(privateKey), username, password, reply,
                                         ReplyAt(replies, 1), clock.readings(old(clock.calls) + 1));
      ConsumeTwice(replies, 1, |rest.sent|);
      AppendAssoc(old(session.sent), [first], rest.sent);
    }

    /** `login` after the challenge request was answered by `reply`: read the challenge and, if accepted, answer it. */
    method ReadChallengeReply(session: Session, clock: Clock, url: string, username: string, password: string,
                              reply: Reply)
      returns (ok: bool, detail: string)
      modifies this, session, clock
      ensures var t := ChallengeReplied(hmac, url, namespace, old(privateKey), username, password, reply,
                                        ReplyAt(old(session.replies), 0), clock.readings(old(clock.calls)));
        && ok == t.ok && detail == t.detail && privateKey == t.key
        && session.sent == old(session.sent) + t.sent
        && session.replies == Consume(old(session.replies), |t.sent|)
        && session.cookies == (if t.uid.Some? then old(session.cookies)["uid" := t.uid.value] else old(session.cookies))
        && clock.calls == old(clock.calls) + |t.sent|
    {
      if reply.Raised? {
        privateKey := None;
        assert session.sent + [] == session.sent;
        return false, "";
      }
      if reply.status != 200 || reply.json.Failure? {
        assert session.sent + [] == session.sent;
        return false, reply.text;
      }
      var challenge := ReadChallenge(reply.json.value);
      if challenge.Rejected? {
        assert session.sent + [] == session.sent;
        return false, reply.text;
      }
      if challenge.Crashed? {
        privateKey := None;
        assert session.sent + [] == session.sent;
        return false, "";
      }
      ok, detail := CompleteLogin(session, clock, url, username, password,
                                  challenge.challenge, challenge.cookie, challenge.publicKey);
    }

    /** The rest of `login` once the challenge is accepted: derive and store the key, set the uid cookie, send the login request. */
    method CompleteLogin(session: Session, clock: Clock, url: string, username: string, password: string,
                         challenge: string, cookie: Json, publicKey: string)
      returns (ok: bool, detail: string)
      modifies this, session, clock
      ensures var t := FinishLogin(hmac, url, namespace, username, password, challenge, cookie, publicKey,
                                   ReplyAt(old(session.replies), 0), clock.readings(old(clock.calls)));
        && ok == t.ok && detail == t.detail && privateKey == t.key
        && session.sent == old(session.sent) + t.sent
        && session.replies == Consume(old(session.replies), 1)
        && session.cookies == old(session.cookies)["uid" := cookie]
        && clock.calls == old(clock.calls) + 1
    {
      var key := HmacMd5Upper(hmac, publicKey + password, challenge);
      privateKey := Some(key);
      session.SetCookie("uid", cookie);
      var loginPassword := HmacMd5Upper(hmac, key, challenge);
      SigningKeyOfDigest(key);
      var auth := GetHnapAuth(clock, "Login");
      var reply := session.Post(Request(url, JsonHeaders(namespace, "Login", auth), LoginBody("login", username, loginPassword)));
      if reply.Raised? {
        privateKey := None;
        return false, "";
      }
      if reply.status != 200 {
        privateKey := None;
        return false, reply.text;
      }
      if reply.json.Failure? {
        return true, reply.text;
      }
      var result := ReadLoginResult(reply.json.value);
      if result.None? {
        privateKey := None;
        return false, "";
      }
      if IsLoginSuccess(result.value) {
        return true, reply.text;
      }
      privateKey := None;
      return false, reply.text;
    }
  }

  /**
   * The key left stored after a login: a successful login leaves the key derived
   * from the challenge, a failed one leaves no key or (only when the challenge
   * step was answered but refused) the key stored before.
   */
  lemma LoginKeyOutcome(h: HexDigest, endpoint: string, namespace: string, oldKey: Option<string>,
                        baseUrl: string, username: string, password: string,
                        replies: seq<Reply>, t1: real, t2: real)
    ensures var t := LoginRun(h, endpoint, namespace, oldKey, baseUrl, username, password, replies, t1, t2);
      && (t.ok ==> |t.sent| == 2 && t.uid.Some? && t.key.Some? && IsUpperHexDigest(t.key.value))
      && (!t.ok ==> t.key == None || (t.key == oldKey && |t.sent| == 1))
      && (|t.sent| == 2 <==> t.uid.Some?)
      && 1 <= |t.sent| <= 2
  {
    ChallengeRepliedOutcome(h, baseUrl + endpoint, namespace, oldKey, username, password,
                            ReplyAt(replies, 0), ReplyAt(replies, 1), t2);
  }

  /**
   * A challenge step that is answered but refused (a status other than 200, a
   * body that is not JSON, or a missing or empty Challenge, PublicKey or Cookie)
   * keeps the key stored before, returns the reply's text and sends nothing more.
   */
  lemma ChallengeRejectedKeepsKey(h: HexDigest, endpoint: string, namespace: string, oldKey: Option<string>,
                                  baseUrl: string, username: string, password: string,
                                  replies: seq<Reply>, t1: real, t2: real)
    ensures var r0 := ReplyAt(replies, 0);
      var t := LoginRun(h, endpoint, namespace, oldKey, baseUrl, username, password, replies, t1, t2);
      r0.Response? && (r0.status != 200 || r0.json.Failure? || ReadChallenge(r0.json.value).Rejected?)
      ==> !t.ok && t.key == oldKey && t.detail == r0.text && |t.sent| == 1 && t.uid == None
  {
  }

  /** A successful login stores exactly the private key derived from the accepted challenge. */
  lemma LoginSuccessStoresDerivedKey(h: HexDigest, endpoint: string, namespace: string, oldKey: Option<string>,
                                     baseUrl: string, username: string, password: string,
                                     replies: seq<Reply>, t1: real, t2: real)
    ensures var r0 := ReplyAt(replies, 0);
      var t := LoginRun(h, endpoint, namespace, oldKey, baseUrl, username, password, replies, t1, t2);
      t.ok ==> && r0.Response? && r0.status == 200 && r0.json.Success?
               && ReadChallenge(r0.json.value).Accepted?
               && t.key == Some(PrivateKeyOf(h, ReadChallenge(r0.json.value).challenge,
                                             ReadChallenge(r0.json.value).publicKey, password))
  {
  }

  /**
   * An exception at either step clears the stored key: a first request that
   * raises, a challenge response that crashes the reading of its fields, and an
   * answered challenge whose login then fails for any reason (including a
   * second request that raises, which also returns an empty detail).
   */
  lemma FailureClearsKey(h: HexDigest, endpoint: string, namespace: string, oldKey: Option<string>,
                         baseUrl: string, username: string, password: string,
                         replies: seq<Reply>, t1: real, t2: real)
    ensures var r0 := ReplyAt(replies, 0);
      var r1 := ReplyAt(replies, 1);
      var t := LoginRun(h, endpoint, namespace, oldKey, baseUrl, username, password, replies, t1, t2);
      var answered := r0.Response? && r0.status == 200 && r0.json.Success?;
      && (r0.Raised? ==> !t.ok && t.key == None && t.detail == "")
      && (answered && ReadChallenge(r0.json.value).Crashed? ==> !t.ok && t.key == None && t.detail == "")
      && (answered && ReadChallenge(r0.json.value).Accepted? && !t.ok ==> t.key == None)
      && (answered && ReadChallenge(r0.json.value).Accepted? && r1.Raised? ==> !t.ok && t.key == None && t.detail == "")
  {
  }

  /** After the challenge request: at most one more request, sent exactly when the uid cookie is set. */
  lemma ChallengeRepliedOutcome(h: HexDigest, url: string, namespace: string, oldKey: Option<string>,
                                username: string, password: string, reply: Reply, next: Reply, t2: real)
    ensures var t := ChallengeReplied(h, url, namespace, oldKey, username, password, reply, next, t2);
      && (t.ok ==> |t.sent| == 1 && t.uid.Some? && t.key.Some? && IsUpperHexDigest(t.key.value))
      && (!t.ok ==> t.key == None || (t.key == oldKey && |t.sent| == 0))
      && (|t.sent| == 1 <==> t.uid.Some?)
      && |t.sent| <= 1
  {
    if reply.Response? && reply.status == 200 && reply.json.Success? && ReadChallenge(reply.json.value).Accepted? {
      var c := ReadChallenge(reply.json.value);
      HmacMd5UpperIsDigest(h, c.publicKey + password, c.challenge);
    }
  }

  /** A login succeeds exactly when the challenge is accepted and the second reply is a 200 whose LoginResult is OK or SUCCESS (or whose body is not JSON). */
  lemma LoginSuccessIff(h: HexDigest, endpoint: string, namespace: string, oldKey: Option<string>,
                        baseUrl: string, username: string, password: string,
                        replies: seq<Reply>, t1: real, t2: real)
    ensures LoginRun(h, endpoint, namespace, oldKey, baseUrl, username, password, replies, t1, t2).ok
      <==> (&& ReplyAt(replies, 0).Response? && ReplyAt(replies, 0).status == 200
            && ReplyAt(replies, 0).json.Success? && ReadChallenge(ReplyAt(replies, 0).json.value).Accepted?
            && ReplyAt(replies, 1).Response? && ReplyAt(replies, 1).status == 200
            && (ReplyAt(replies, 1).json.Failure?
                || (ReadLoginResult(ReplyAt(replies, 1).json.value).Some?
                    && IsLoginSuccess(ReadLoginResult(ReplyAt(replies, 1).json.value).value))))
  {
  }

  /**
   * The two requests of a login whose challenge is accepted: the first is signed
   * with the key stored before, the second with the new private key and carries
   * HMAC_MD5(HMAC_MD5(PublicKey + password, Challenge), Challenge) as its password.
   */
  lemma LoginRequests(h: HexDigest, endpoint: string, namespace: string, oldKey: Option<string>,
                      baseUrl: string, username: string, password: string,
                      replies: seq<Reply>, t1: real, t2: real)
    requires ReplyAt(replies, 0).Response? && ReplyAt(replies, 0).status == 200 && ReplyAt(replies, 0).json.Success?
    requires ReadChallenge(ReplyAt(replies, 0).json.value).Accepted?
    ensures var c := ReadChallenge(ReplyAt(replies, 0).json.value);
      var t := LoginRun(h, endpoint, namespace, oldKey, baseUrl, username, password, replies, t1, t2);
      var key := HmacMd5Upper(h, c.publicKey + password, c.challenge);
      && |t.sent| == 2
      && t.sent[0].headers[1] == ("HNAP_AUTH", AuthHeader(h, SigningKey(oldKey), namespace, "Login", TruncatedTimestamp(t1)))
      && t.sent[1].headers[1] == ("HNAP_AUTH", AuthHeader(h, key, namespace, "Login", TruncatedTimestamp(t2)))
      && t.sent[1].body == LoginBody("login", username, HmacMd5Upper(h, key, c.challenge))
      && t.uid == Some(c.cookie)
  {
    var c := ReadChallenge(ReplyAt(replies, 0).json.value);
    SigningKeyOfDigest(HmacMd5Upper(h, c.publicKey + password, c.challenge));
  }

  /** A login that never reaches the device clears the stored key and returns (False, ""). */
  lemma TransportFailureClearsKey(h: HexDigest, endpoint: string, namespace: string, oldKey: Option<string>,
                                  baseUrl: string, username: string, password: string,
                                  replies: seq<Reply>, t1: real, t2: real)
    requires ReplyAt(replies, 0).Raised?
    ensures LoginRun(h, endpoint, namespace, oldKey, baseUrl, username, password, replies, t1, t2)
      == LoginTrace(false, "", None, None,
           [Request(baseUrl + endpoint,
                    JsonHeaders(namespace, "Login", AuthHeader(h, SigningKey(oldKey), namespace, "Login", TruncatedTimestamp(t1))),
                    LoginBody("request", username, ""))])
  {
  }
}
