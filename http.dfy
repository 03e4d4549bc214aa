/**
 * The transport the modelled code talks to: a `requests.Session` that keeps
 * cookies and posts JSON, and the wall clock. Replies of the device are an
 * input: a session is built over the replies it will receive, in order.
 */
module Http {
  import opened Wrappers
  import opened Text
  import opened PyJson

  /** One POST: target URL, headers in the order the code builds them, JSON body. */
  datatype Request = Request(url: string, headers: seq<(string, string)>, body: Json)

  /** What a POST yields: a response, or an exception raised by `session.post` itself. */
  datatype Reply =
    | Response(status: nat, reason: string, text: string, json: Result<Json, string>)
    | Raised(error: Exception)

  /** The reply to a POST made after all scripted replies have been used. */
  const NoReply: Reply := Raised(Exception(ConnectionError, "no reply"))

  /** The reply to the `k`-th POST (counting from 0). */
  function ReplyAt(replies: seq<Reply>, k: nat): Reply {
    if k < |replies| then replies[k] else NoReply
  }

  /** The replies still to come after `k` POSTs. */
  function Consume(replies: seq<Reply>, k: nat): seq<Reply> {
    if k == 0 then replies
    else if |replies| == 0 then []
    else Consume(replies[1..], k - 1)
  }

  /** Appending after one element and then the rest is appending both. */
  lemma AppendCons<T>(before: seq<T>, s: seq<T>)
    requires |s| > 0
    ensures before + s == (before + [s[0]]) + s[1..]
  {
    assert s == [s[0]] + s[1..];
  }

  /** Appending two pieces in turn is appending their concatenation. */
  lemma AppendAssoc<T>(a: seq<T>, b: seq<T>, c: seq<T>)
    ensures (a + b) + c == a + (b + c)
  {
  }

  lemma {:induction false} ConsumeTwice(replies: seq<Reply>, k: nat, m: nat)
    ensures Consume(Consume(replies, k), m) == Consume(replies, k + m)
  {
    if k > 0 && |replies| > 0 {
      ConsumeTwice(replies[1..], k - 1, m);
    } else if k > 0 {
      assert m == 0 || Consume([], m) == [];
    }
  }

  lemma {:induction false} ConsumeStep(replies: seq<Reply>, k: nat)
    ensures ReplyAt(Consume(replies, k), 0) == ReplyAt(replies, k)
    ensures Consume(Consume(replies, k), 1) == Consume(replies, k + 1)
  {
    ConsumeTwice(replies, k, 1);
    if k > 0 && |replies| > 0 {
      ConsumeStep(replies[1..], k - 1);
    }
  }

  /** `response.raise_for_status()` of requests: 4xx and 5xx raise an HTTPError. */
  function StatusError(status: nat, reason: string, url: string): (e: Option<Exception>)
    ensures e.Some? <==> 400 <= status < 600
    ensures e.Some? ==> e.value.kind == HttpError && StartsWith(e.value.message, Decimal(status) + " ")
  {
    if 400 <= status < 500 then
      Some(Exception(HttpError, Decimal(status) + " Client Error: " + reason + " for url: " + url))
    else if 500 <= status < 600 then
      Some(Exception(HttpError, Decimal(status) + " Server Error: " + reason + " for url: " + url))
    else None
  }

  /** `response.json()` / `json.loads(response.text)`: a body that is not JSON raises JSONDecodeError. */
  function DecodeBody(json: Result<Json, string>): (r: Result<Json, Exception>)
    ensures r.Failure? <==> json.Failure?
    ensures r.Failure? ==> r.error == Exception(JsonDecodeError, json.error)
    ensures r.Success? ==> r.value == json.value
  {
    match json
    case Success(v) => Success(v)
    case Failure(message) => Failure(Exception(JsonDecodeError, message))
  }

  /** A `requests.Session`: its cookie jar, the requests posted so far, the replies still to come. */
  class Session {
    var cookies: map<string, Json>
    var sent: seq<Request>
    var replies: seq<Reply>

    constructor (replies: seq<Reply>)
      ensures cookies == map[] && sent == [] && this.replies == replies
    {
      cookies := map[];
      sent := [];
      this.replies := replies;
    }

    /** `session.post(...)`: the request is sent and the next reply is taken. */
    method Post(request: Request) returns (reply: Reply)
      modifies this
      ensures reply == ReplyAt(old(replies), 0) && replies == Consume(old(replies), 1)
      ensures sent == old(sent) + [request] && cookies == old(cookies)
    {
      sent := sent + [request];
      if |replies| > 0 {
        reply := replies[0];
        replies := replies[1..];
      } else {
        reply := NoReply;
      }
    }

    /** `session.cookies.set(name, value)`. */
    method SetCookie(name: string, value: Json)
      modifies this
      ensures cookies == old(cookies)[name := value]
      ensures sent == old(sent) && replies == old(replies)
    {
      cookies := cookies[name := value];
    }
  }

  /** `time.time()`: the `k`-th reading is `readings(k)`. */
  class Clock {
    const readings: nat -> real
    var calls: nat

    constructor (readings: nat -> real)
      ensures this.readings == readings && calls == 0
    {
      this.readings := readings;
      calls := 0;
    }

    method Now() returns (t: real)
      modifies this
      ensures t == readings(old(calls)) && calls == old(calls) + 1
    {
      t := readings(calls);
      calls := calls + 1;
    }
  }
}
