/** What the client sends and what it receives, with the HTTP session
    abstracted away: a request names its endpoint parameters and its `q`
    payload, a reply carries a status code and the records already parsed
    from its JSON body, and the effects of a call are recorded as a trace. */
module Transport {
  import opened Optional

  /** HTTP 200, the only status whose body is read. */
  const StatusOk: int := 200
  /** HTTP 429, the only status that is retried. */
  const StatusTooManyRequests: int := 429

  /** The endpoint and query parameters of a POST. */
  datatype Endpoint =
    | DetectEndpoint(key: string)
    | TranslateEndpoint(key: string, target: string, source: Option<string>, format: string, model: string)

  /** One POST: endpoint parameters and the form field `q`. */
  datatype Request = Request(endpoint: Endpoint, payload: seq<string>)

  /** A server reply: its status code and the records of its body
      (translations or detections; only read when the status is 200). */
  datatype Reply<R> = Reply(status: int, records: seq<R>)

  /** An effect of a call: a POST issued, or a `time.sleep` of some seconds. */
  datatype Event = Post(request: Request) | Sleep(seconds: nat)

  /** Number of POSTs in a trace. */
  function PostCount(events: seq<Event>): nat
  {
    if |events| == 0 then 0
    else (if events[0].Post? then 1 else 0) + PostCount(events[1..])
  }

  lemma {:induction false} PostCountAppend(a: seq<Event>, b: seq<Event>)
    ensures PostCount(a + b) == PostCount(a) + PostCount(b)
    decreases |a|
  {
    if |a| > 0 {
      assert (a + b)[1..] == a[1..] + b;
      PostCountAppend(a[1..], b);
    } else {
      assert a + b == b;
    }
  }
}
