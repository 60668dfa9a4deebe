/** The `ApiKeyTranslate` client: its configuration, the parameter
    defaulting of `translate`, and the shared shape of `detect` and
    `translate` (plan the size-groups, run them, pick the return shape). */
module Client {
  import opened Optional
  import opened Seqs
  import opened Splitting
  import opened Transport
  import opened Retry

  const DefaultTarget: string := "zh-CN"
  const DefaultFormat: string := "html"
  const DefaultModel: string := "nmt"
  /** The source language that `__init__` stores as "unset". */
  const AutoDetect: string := "auto"

  /** The instance fields of `ApiKeyTranslate` that reach a request. */
  datatype Config = Config(apiKey: string, target: string, source: Option<string>, format: string, model: string)

  /** `__init__`: a source of "auto" is stored as unset. */
  function NewClient(apiKey: string, target: string, source: Option<string>, format: string, model: string): (c: Config)
    ensures c.apiKey == apiKey && c.target == target && c.format == format && c.model == model
    ensures c.source.Some? ==> c.source.value != AutoDetect
    ensures source != Some(AutoDetect) ==> c.source == source
  {
    Config(apiKey, target, if source == Some(AutoDetect) then None else source, format, model)
  }

  /** `ApiKeyTranslate(api_key)` with every other argument left at its default. */
  function DefaultClient(apiKey: string): (c: Config)
    ensures c == Config(apiKey, "zh-CN", None, "html", "nmt")
  {
    NewClient(apiKey, DefaultTarget, None, DefaultFormat, DefaultModel)
  }

  /** The optional `target`, `source`, `fmt` and `model` arguments of `translate`. */
  datatype Overrides = Overrides(target: Option<string>, source: Option<string>, format: Option<string>, model: Option<string>)

  /** No per-call arguments. */
  const NoOverrides := Overrides(None, None, None, None)

  /** The parameters `translate` posts: each argument that is not `None`
      wins, otherwise the instance's value is used. An explicit "auto"
      source is passed through as is; only `__init__` normalises it. */
  function TranslateParams(c: Config, o: Overrides): (e: Endpoint)
    ensures e.TranslateEndpoint? && e.key == c.apiKey
    ensures o.target.Some? ==> e.target == o.target.value
    ensures o.target.None? ==> e.target == c.target
    ensures o.source.Some? ==> e.source == o.source
    ensures o.source.None? ==> e.source == c.source
    ensures o.format.Some? ==> e.format == o.format.value
    ensures o.format.None? ==> e.format == c.format
    ensures o.model.Some? ==> e.model == o.model.value
    ensures o.model.None? ==> e.model == c.model
  {
    TranslateEndpoint(
      c.apiKey,
      Resolve(o.target, c.target),
      if o.source.Some? then o.source else c.source,
      Resolve(o.format, c.format),
      Resolve(o.model, c.model))
  }

  /** `if x is None: x = self.x`. */
  function Resolve(given: Option<string>, instance: string): string
  {
    if given.Some? then given.value else instance
  }

  /** The parameters `detect` posts. */
  function DetectParams(c: Config): (e: Endpoint)
    ensures e.DetectEndpoint? && e.key == c.apiKey
  {
    DetectEndpoint(c.apiKey)
  }

  /** An exception escaping a call: from `session.post`, or the `ll[0]` of a
      string query whose successful replies held no record. */
  datatype Fault = TransportError | IndexError

  /** What `detect` / `translate` return: one record for a string query,
      the list for a list query, `Null(response)` on a non-200 reply, or
      an exception. */
  datatype Answer<R> = Single(record: R) | Listed(records: seq<R>) | Null(reply: Reply<R>) | Thrown(fault: Fault)

  /** The trace of a call and what it returned. */
  datatype CallResult<R> = CallResult(events: seq<Event>, answer: Answer<R>)

  /** The return statement of `detect` / `translate`: `ll[0]` for a string
      query, `ll` for a list query, `Null(response)` after an abort. */
  function Shape<R>(q: Input<string>, outcome: Outcome<R>): (a: Answer<R>)
    ensures a.Single? <==> q.Scalar? && outcome.Collected? && |outcome.records| > 0
    ensures a.Single? ==> a.record == outcome.records[0]
    ensures a.Listed? <==> q.List? && outcome.Collected?
    ensures a.Listed? ==> a.records == outcome.records
    ensures a.Null? <==> outcome.Rejected?
    ensures a.Null? ==> a.reply == outcome.reply
    ensures a == Thrown(IndexError) <==> q.Scalar? && outcome == Collected([])
    ensures a == Thrown(TransportError) <==> outcome.Raised?
  {
    match outcome
    case Raised => Thrown(TransportError)
    case Rejected(reply) => Null(reply)
    case Collected(records) =>
      if q.List? then Listed(records)
      else if |records| == 0 then Thrown(IndexError)
      else Single(records[0])
  }

  /** The body shared by `detect` and `translate`. */
  function Batched<R>(endpoint: Endpoint, q: Input<string>, script: seq<Reply<R>>): (r: CallResult<R>)
    // an empty list issues no request and returns an empty list
    ensures q == List([]) ==> r == CallResult([], Listed([]))
    // a string query is sent as the one-item payload [q]
    ensures q.Scalar? ==> forall i :: 0 <= i < |r.events| && r.events[i].Post? ==>
      r.events[i].request == Request(endpoint, [q.item])
    // every payload is one of the call's size-groups: 1 to 128 items that fit
    // the size limit unless it is one irreducible string
    ensures forall i :: 0 <= i < |r.events| && r.events[i].Post? ==>
      var payload := r.events[i].request.payload;
      r.events[i].request.endpoint == endpoint && payload in Plan(q) &&
      1 <= |payload| <= DefaultSubSize && Fits(payload, DefaultContentSize)
    // at most three requests per item
    ensures PostCount(r.events) <= MaxAttempts * |Items(q)|
    ensures r.answer.Single? ==> q.Scalar?
    ensures r.answer.Listed? ==> q.List?
    ensures r.answer.Null? ==> r.answer.reply.status != StatusOk
  {
    var groups := Plan(q);
    var call := RunGroups(endpoint, groups, script);
    RunGroupsPosts(endpoint, groups, script);
    RunGroupsPostBounds(endpoint, groups, script);
    FlattenCountsGroups(groups);
    CallResult(call.events, Shape(q, call.outcome))
  }

  /** `ApiKeyTranslate.detect(q)`. */
  function Detect<R>(c: Config, q: Input<string>, script: seq<Reply<R>>): (r: CallResult<R>)
    ensures forall i :: 0 <= i < |r.events| && r.events[i].Post? ==>
      r.events[i].request.endpoint == DetectEndpoint(c.apiKey)
  {
    var r := Batched(DetectParams(c), q, script);
    r
  }

  /** `ApiKeyTranslate.translate(q, target, source, fmt, model)`. */
  function Translate<R>(c: Config, q: Input<string>, o: Overrides, script: seq<Reply<R>>): (r: CallResult<R>)
    ensures forall i :: 0 <= i < |r.events| && r.events[i].Post? ==>
      r.events[i].request.endpoint == TranslateParams(c, o)
  {
    var r := Batched(TranslateParams(c, o), q, script);
    r
  }
}
